/** The clone engine: copies one predecessor product, with its units and
    company bindings, to a new product code under a new classification,
    then retires the predecessor. It never ends the transaction: the
    caller commits or rolls back. */
module Clone {
  import opened Wrappers
  import opened Values
  import opened Seqs
  import opened OracleStore
  import opened OracleErrors
  import opened SessionGuard
  import opened Identifiers
  import opened CloneColumns

  const OWNER := "DBAMV"

  /** Columns a product copy does not take from its predecessor: the key,
      the classification, the registration date and the audit columns the
      store's trigger fills. */
  const PRODUCT_EXCLUDED := ["CD_PRODUTO", "CD_ESPECIE", "CD_CLASSE", "CD_SUB_CLA", "DT_CADASTRO",
                             "CD_USUARIO_INC", "DT_INC_USUARIO", "CD_USUARIO_ALT", "DT_ALT_USUARIO"]
  /** A unit copy gets its own key, the new product and no barcode. */
  const UNIT_EXCLUDED := ["CD_UNI_PRO", "CD_PRODUTO", "CD_CODIGO_DE_BARRAS"]
  const BINDING_EXCLUDED := ["CD_PRODUTO"]

  /** The columns a product copy sets itself. */
  const PRODUCT_SET := {"CD_PRODUTO", "CD_ESPECIE", "CD_CLASSE", "CD_SUB_CLA", "DT_CADASTRO"}
  const UNIT_SET := {"CD_UNI_PRO", "CD_PRODUTO", "CD_CODIGO_DE_BARRAS"}

  /** DBAMV.SUB_CLAS has a row for the triple (`validarSubClas`). */
  predicate ClassificationExists(subClas: seq<Row>, species: Value, classe: Value, subclass: Value) {
    exists i :: 0 <= i < |subClas| &&
      SqlEq(Get(subClas[i], "CD_ESPECIE"), species) &&
      SqlEq(Get(subClas[i], "CD_CLASSE"), classe) &&
      SqlEq(Get(subClas[i], "CD_SUB_CLA"), subclass)
  }

  /** The listed columns of `src`. */
  function CopyColumns(src: Row, cols: seq<string>): (r: Row)
    ensures forall c :: c in r <==> c in cols
    ensures forall c :: c in cols ==> r[c] == Get(src, c)
  {
    map c | c in cols :: Get(src, c)
  }

  /** The product row `INSERT INTO produto … SELECT` builds from `pred`. */
  function NewProductRow(pred: Row, cols: seq<string>, id: int, species: Value, classe: Value, subclass: Value): Row {
    CopyColumns(pred, cols)["CD_PRODUTO" := Num(id)]["CD_ESPECIE" := species]["CD_CLASSE" := classe]
      ["CD_SUB_CLA" := subclass]["DT_CADASTRO" := SysDate]
  }

  function NewProducts(preds: seq<Row>, cols: seq<string>, id: int, species: Value, classe: Value, subclass: Value)
    : (rows: seq<Row>)
    ensures |rows| == |preds|
    ensures forall i :: 0 <= i < |preds| ==> rows[i] == NewProductRow(preds[i], cols, id, species, classe, subclass)
  {
    seq(|preds|, i requires 0 <= i < |preds| => NewProductRow(preds[i], cols, id, species, classe, subclass))
  }

  /** The unit rows `INSERT INTO uni_pro … SELECT` builds: each takes the
      next value of SEQ_UNI_PRO, the new product and a NULL barcode. */
  function CopyUnits(units: seq<Row>, cols: seq<string>, id: int, firstUnitId: int): (rows: seq<Row>)
    ensures |rows| == |units|
  {
    seq(|units|, k requires 0 <= k < |units| => UnitCopy(units[k], cols, id, firstUnitId + k))
  }

  function UnitCopy(unit: Row, cols: seq<string>, id: int, unitId: int): Row {
    CopyColumns(unit, cols)["CD_UNI_PRO" := Num(unitId)]["CD_PRODUTO" := Num(id)]["CD_CODIGO_DE_BARRAS" := Null]
  }

  /** A unit copy: its own code, the new product, no barcode, and the other
      copied columns of the unit it copies. */
  lemma UnitCopyFields(unit: Row, cols: seq<string>, id: int, unitId: int)
    ensures var u := UnitCopy(unit, cols, id, unitId);
      && Get(u, "CD_UNI_PRO") == Num(unitId)
      && Get(u, "CD_PRODUTO") == Num(id)
      && Get(u, "CD_CODIGO_DE_BARRAS") == Null
      && (forall c :: c in cols && c !in UNIT_SET ==> Get(u, c) == Get(unit, c))
  {
  }

  /** The predecessor's bindings a clone copies: those of the fixed company
      when `onlyFixedCompany`, all of them otherwise. */
  function BindingsToCopy(empresaProduto: seq<Row>, predecessor: Value, onlyFixedCompany: bool): seq<Row> {
    var own := Where(empresaProduto, "CD_PRODUTO", predecessor);
    if onlyFixedCompany then Where(own, "CD_MULTI_EMPRESA", Num(FIXED_COMPANY)) else own
  }

  function CopyBindings(bindings: seq<Row>, cols: seq<string>, id: int): (rows: seq<Row>)
    ensures |rows| == |bindings|
  {
    seq(|bindings|, k requires 0 <= k < |bindings| => BindingCopy(bindings[k], cols, id))
  }

  function BindingCopy(binding: Row, cols: seq<string>, id: int): Row {
    CopyColumns(binding, cols)["CD_PRODUTO" := Num(id)]
  }

  /** `SET sn_movimentacao = 'N', sn_bloqueio_de_compra = 'S'` */
  function Retire(r: Row): Row {
    r["SN_MOVIMENTACAO" := Str("N")]["SN_BLOQUEIO_DE_COMPRA" := Str("S")]
  }

  predicate IsFixedCompanyBinding(r: Row, predecessor: Value) {
    SqlEq(Get(r, "CD_PRODUTO"), predecessor) && SqlEq(Get(r, "CD_MULTI_EMPRESA"), Num(FIXED_COMPANY))
  }

  /** `UPDATE produto SET … WHERE cd_produto = :p` */
  function RetireProducts(produto: seq<Row>, predecessor: Value): (rows: seq<Row>)
    ensures |rows| == |produto|
  {
    seq(|produto|, i requires 0 <= i < |produto| =>
      if SqlEq(Get(produto[i], "CD_PRODUTO"), predecessor) then Retire(produto[i]) else produto[i])
  }

  /** `UPDATE empresa_produto SET … WHERE cd_produto = :p AND cd_multi_empresa = 4` */
  function RetireBindings(empresaProduto: seq<Row>, predecessor: Value): (rows: seq<Row>)
    ensures |rows| == |empresaProduto|
  {
    seq(|empresaProduto|, i requires 0 <= i < |empresaProduto| =>
      if IsFixedCompanyBinding(empresaProduto[i], predecessor) then Retire(empresaProduto[i]) else empresaProduto[i])
  }

  /** The column lists of the three tables, when all three can be built. */
  datatype ColumnLists = ColumnLists(product: seq<string>, unit: seq<string>, binding: seq<string>)

  /** `cols` are the column lists the catalogue yields for the three tables. */
  predicate ColumnsRead(catalog: seq<ColumnMeta>, cols: ColumnLists) {
    && ColumnListFrom(catalog, "PRODUTO", PRODUCT_EXCLUDED, OWNER) == Ok(cols.product)
    && ColumnListFrom(catalog, "UNI_PRO", UNIT_EXCLUDED, OWNER) == Ok(cols.unit)
    && ColumnListFrom(catalog, "EMPRESA_PRODUTO", BINDING_EXCLUDED, OWNER) == Ok(cols.binding)
  }

  /** The exclusion lists are upper-case identifiers already, so
      sanitising them changes nothing. */
  lemma ProductExclusionsSanitize()
    ensures SanitizeAll(PRODUCT_EXCLUDED) == Ok(PRODUCT_EXCLUDED)
  {
    assert forall i :: 0 <= i < |PRODUCT_EXCLUDED| ==> IsUpperIdentifier(PRODUCT_EXCLUDED[i]);
    SanitizeAllUpper(PRODUCT_EXCLUDED);
  }

  lemma UnitExclusionsSanitize()
    ensures SanitizeAll(UNIT_EXCLUDED) == Ok(UNIT_EXCLUDED)
  {
    assert forall i :: 0 <= i < |UNIT_EXCLUDED| ==> IsUpperIdentifier(UNIT_EXCLUDED[i]);
    SanitizeAllUpper(UNIT_EXCLUDED);
  }

  lemma BindingExclusionsSanitize()
    ensures SanitizeAll(BINDING_EXCLUDED) == Ok(BINDING_EXCLUDED)
  {
    assert forall i :: 0 <= i < |BINDING_EXCLUDED| ==> IsUpperIdentifier(BINDING_EXCLUDED[i]);
    SanitizeAllUpper(BINDING_EXCLUDED);
  }

  /** The tables after the three copies of a clone of `predecessor` to product `id`. */
  function CopyEffect(t: Tables, predecessor: Value, species: Value, classe: Value, subclass: Value,
                      id: int, firstUnitId: int, cols: ColumnLists, onlyFixedCompany: bool): Tables
  {
    Tables(
      t.produto + NewProducts(Where(t.produto, "CD_PRODUTO", predecessor), cols.product, id, species, classe, subclass),
      t.uniPro + CopyUnits(Where(t.uniPro, "CD_PRODUTO", predecessor), cols.unit, id, firstUnitId),
      t.empresaProduto + CopyBindings(BindingsToCopy(t.empresaProduto, predecessor, onlyFixedCompany), cols.binding, id))
  }

  /** The two `UPDATE`s that retire `predecessor`. */
  function Retired(t: Tables, predecessor: Value): Tables {
    t.(produto := RetireProducts(t.produto, predecessor),
       empresaProduto := RetireBindings(t.empresaProduto, predecessor))
  }

  /** The tables after a successful clone: the copies, then the retirement
      of the predecessor. */
  function CloneEffect(t: Tables, predecessor: Value, species: Value, classe: Value, subclass: Value,
                       id: int, firstUnitId: int, cols: ColumnLists, onlyFixedCompany: bool): Tables
  {
    Retired(CopyEffect(t, predecessor, species, classe, subclass, id, firstUnitId, cols, onlyFixedCompany), predecessor)
  }

  /** `after` is what a clone makes of `before` with column lists read
      from `catalog`. */
  ghost predicate ClonedFrom(catalog: seq<ColumnMeta>, before: Tables, after: Tables, predecessor: Value,
                             species: Value, classe: Value, subclass: Value, id: int, firstUnitId: int,
                             onlyFixedCompany: bool)
  {
    exists cols :: ColumnsRead(catalog, cols) &&
      after == CloneEffect(before, predecessor, species, classe, subclass, id, firstUnitId, cols, onlyFixedCompany)
  }

  /** `validarSubClas`: passes exactly when the triple is a row of SUB_CLAS. */
  method ValidateSubClas(db: OracleDb, species: Value, classe: Value, subclass: Value) returns (r: Outcome<CloneError>)
    modifies db`trace
    ensures db.trace == old(db.trace) + [SelectSubClas(species, classe, subclass)]
    ensures r.Pass? <==> ClassificationExists(db.subClas, species, classe, subclass)
    ensures r.Fail? ==> r.error == InvalidClassification(species, classe, subclass)
  {
    db.trace := db.trace + [SelectSubClas(species, classe, subclass)];
    if !ClassificationExists(db.subClas, species, classe, subclass) {
      return Fail(InvalidClassification(species, classe, subclass));
    }
    return Pass;
  }

  /** `getCloneColumnList` for one DBAMV table, with the catalogue read it issues. */
  method ReadCloneColumns(db: OracleDb, table: string, exclude: seq<string>) returns (r: Result<seq<string>, CloneError>)
    modifies db`trace
    ensures db.trace == old(db.trace) + [ReadColumns(OWNER, table)]
    ensures r == GetCloneColumnList(db.catalog, table, exclude, OWNER)
  {
    db.trace := db.trace + [ReadColumns(OWNER, table)];
    r := GetCloneColumnList(db.catalog, table, exclude, OWNER);
  }

  /** `INSERT INTO dbamv.produto … SELECT … WHERE cd_produto = :p_antecessor`,
      with its column list; fails unless exactly one row was copied. */
  method InsertProductCopy(db: OracleDb, predecessor: Value, species: Value, classe: Value, subclass: Value, id: int)
    returns (r: Result<seq<string>, CloneError>)
    modifies db`work, db`trace
    ensures r.Ok? ==>
      && |Where(old(db.work).produto, "CD_PRODUTO", predecessor)| == 1
      && ColumnListFrom(db.catalog, "PRODUTO", PRODUCT_EXCLUDED, OWNER) == Ok(r.value)
      && db.work == old(db.work).(produto := old(db.work).produto
           + NewProducts(Where(old(db.work).produto, "CD_PRODUTO", predecessor), r.value, id, species, classe, subclass))
    ensures ColumnListFrom(db.catalog, "PRODUTO", PRODUCT_EXCLUDED, OWNER).Err? ==>
      r == Err(ColumnListFrom(db.catalog, "PRODUTO", PRODUCT_EXCLUDED, OWNER).error) && db.work == old(db.work)
    ensures ColumnListFrom(db.catalog, "PRODUTO", PRODUCT_EXCLUDED, OWNER).Ok? &&
            |Where(old(db.work).produto, "CD_PRODUTO", predecessor)| != 1 ==>
      r == Err(PredecessorNotFound(predecessor))
  {
    ProductExclusionsSanitize();
    var cols := ReadCloneColumns(db, "PRODUTO", PRODUCT_EXCLUDED);
    if cols.Err? {
      return Err(cols.error);
    }
    var preds := Where(db.work.produto, "CD_PRODUTO", predecessor);
    db.work := db.work.(produto := db.work.produto + NewProducts(preds, cols.value, id, species, classe, subclass));
    db.trace := db.trace + [InsertProducts(|preds|)];
    if |preds| != 1 {
      return Err(PredecessorNotFound(predecessor));
    }
    return Ok(cols.value);
  }

  /** `INSERT INTO dbamv.uni_pro … SELECT dbamv.seq_uni_pro.NEXTVAL, …`,
      with its column list. */
  method InsertUnitCopies(db: OracleDb, predecessor: Value, id: int) returns (r: Result<seq<string>, CloneError>)
    modifies db`work, db`seqUniPro, db`trace
    ensures r.Ok? ==>
      && ColumnListFrom(db.catalog, "UNI_PRO", UNIT_EXCLUDED, OWNER) == Ok(r.value)
      && db.work == old(db.work).(uniPro := old(db.work).uniPro
           + CopyUnits(Where(old(db.work).uniPro, "CD_PRODUTO", predecessor), r.value, id, old(db.seqUniPro)))
      && db.seqUniPro == old(db.seqUniPro) + |Where(old(db.work).uniPro, "CD_PRODUTO", predecessor)|
    ensures r.Err? ==>
      && ColumnListFrom(db.catalog, "UNI_PRO", UNIT_EXCLUDED, OWNER) == Err(r.error)
      && db.work == old(db.work) && db.seqUniPro == old(db.seqUniPro)
  {
    UnitExclusionsSanitize();
    var cols := ReadCloneColumns(db, "UNI_PRO", UNIT_EXCLUDED);
    if cols.Err? {
      return Err(cols.error);
    }
    var units := Where(db.work.uniPro, "CD_PRODUTO", predecessor);
    db.work := db.work.(uniPro := db.work.uniPro + CopyUnits(units, cols.value, id, db.seqUniPro));
    db.seqUniPro := db.seqUniPro + |units|;
    db.trace := db.trace + [InsertUnits(|units|)];
    return Ok(cols.value);
  }

  /** `INSERT INTO dbamv.empresa_produto … SELECT …`, with its column list. */
  method InsertBindingCopies(db: OracleDb, predecessor: Value, id: int, onlyFixedCompany: bool)
    returns (r: Result<seq<string>, CloneError>)
    modifies db`work, db`trace
    ensures r.Ok? ==>
      && ColumnListFrom(db.catalog, "EMPRESA_PRODUTO", BINDING_EXCLUDED, OWNER) == Ok(r.value)
      && db.work == old(db.work).(empresaProduto := old(db.work).empresaProduto
           + CopyBindings(BindingsToCopy(old(db.work).empresaProduto, predecessor, onlyFixedCompany), r.value, id))
    ensures r.Err? ==>
      ColumnListFrom(db.catalog, "EMPRESA_PRODUTO", BINDING_EXCLUDED, OWNER) == Err(r.error) && db.work == old(db.work)
  {
    BindingExclusionsSanitize();
    var cols := ReadCloneColumns(db, "EMPRESA_PRODUTO", BINDING_EXCLUDED);
    if cols.Err? {
      return Err(cols.error);
    }
    var bindings := BindingsToCopy(db.work.empresaProduto, predecessor, onlyFixedCompany);
    db.work := db.work.(empresaProduto := db.work.empresaProduto + CopyBindings(bindings, cols.value, id));
    db.trace := db.trace + [InsertBindings(|bindings|)];
    return Ok(cols.value);
  }

  /** The three copies of a clone, once the new product code `id` is
      drawn: the product, then (only when exactly one predecessor row was
      copied) its units and its bindings. */
  method InsertCopies(db: OracleDb, predecessor: Value, species: Value, classe: Value,
                      subclass: Value, id: int, onlyFixedCompany: bool)
    returns (r: Result<ColumnLists, CloneError>)
    modifies db`work, db`seqUniPro, db`trace
    ensures r.Ok? ==>
      && |Where(old(db.work).produto, "CD_PRODUTO", predecessor)| == 1
      && ColumnsRead(db.catalog, r.value)
      && db.work == CopyEffect(old(db.work), predecessor, species, classe, subclass, id,
                               old(db.seqUniPro), r.value, onlyFixedCompany)
      && db.seqUniPro == old(db.seqUniPro) + |Where(old(db.work).uniPro, "CD_PRODUTO", predecessor)|
  {
    ghost var t0 := db.work;
    ghost var firstUnitId := db.seqUniPro;
    var colsProd := InsertProductCopy(db, predecessor, species, classe, subclass, id);
    if colsProd.Err? {
      return Err(colsProd.error);
    }
    assert db.work.uniPro == t0.uniPro;
    var colsUni := InsertUnitCopies(db, predecessor, id);
    if colsUni.Err? {
      return Err(colsUni.error);
    }
    var colsEmp := InsertBindingCopies(db, predecessor, id, onlyFixedCompany);
    if colsEmp.Err? {
      return Err(colsEmp.error);
    }
    return Ok(ColumnLists(colsProd.value, colsUni.value, colsEmp.value));
  }

  /** The session guard, run again right before the update that fires the
      store's trigger, then the two `UPDATE`s that retire the predecessor. */
  method RetirePredecessor(db: OracleDb, skip: bool, predecessor: Value) returns (r: Outcome<CloneError>)
    modifies db`work, db`sessionCompany, db`trace
    ensures r.Pass? ==> db.work == Retired(old(db.work), predecessor)
    ensures r.Pass? && !skip ==> JsNumber(db.sessionCompany) == Some(FIXED_COMPANY)
    ensures r.Fail? ==> db.work == old(db.work)
  {
    r := PrepareSession(db, skip, FIXED_COMPANY);
    if r.Pass? {
      db.work := Retired(db.work, predecessor);
      db.trace := db.trace + [DeactivateProducts, DeactivateBindings];
    }
  }

  /** The writes of a clone once the new product code `id` is drawn: the
      copies, the session guard again, and the retirement of the
      predecessor. */
  method WriteClone(db: OracleDb, skip: bool, predecessor: Value, species: Value, classe: Value,
                    subclass: Value, id: int, onlyFixedCompany: bool)
    returns (r: Result<ColumnLists, CloneError>)
    modifies db`work, db`seqUniPro, db`sessionCompany, db`trace
    ensures r.Ok? ==>
      && |Where(old(db.work).produto, "CD_PRODUTO", predecessor)| == 1
      && ColumnsRead(db.catalog, r.value)
      && db.work == CloneEffect(old(db.work), predecessor, species, classe, subclass, id,
                                old(db.seqUniPro), r.value, onlyFixedCompany)
      && db.seqUniPro == old(db.seqUniPro) + |Where(old(db.work).uniPro, "CD_PRODUTO", predecessor)|
  {
    r := InsertCopies(db, predecessor, species, classe, subclass, id, onlyFixedCompany);
    if r.Ok? {
      ghost var copied := db.work;
      var finished := RetirePredecessor(db, skip, predecessor);
      if finished.Fail? {
        r := Err(finished.error);
      } else {
        assert db.work == Retired(copied, predecessor);
      }
    }
  }

  /** The checks a clone starts with: the session guard and, when only the
      fixed company's bindings are copied, a second reading of the session's
      company. */
  method CheckSession(db: OracleDb, skip: bool, onlyFixedCompany: bool) returns (r: Outcome<CloneError>)
    modifies db`sessionCompany, db`trace
    ensures r.Pass? && !skip ==>
      Configured(db.configest, FIXED_COMPANY) && JsNumber(db.sessionCompany) == Some(FIXED_COMPANY)
    ensures skip ==> r.Pass?
    ensures r.Fail? ==> SessionError(r.error)
  {
    r := PrepareSession(db, skip, FIXED_COMPANY);
    if r.Pass? && onlyFixedCompany && !skip {
      db.trace := db.trace + [ReadSessionCompany];
      var empSessao := db.sessionCompany;
      if JsNumber(empSessao) != Some(FIXED_COMPANY) {
        r := Fail(NotCompany4(empSessao));
      }
    }
  }

  /** `cloneProdutoOracle`. On success the result is the product code drawn
      from SEQ_PRODUTO and the session's tables are `CloneEffect` of what
      they were. An invalid classification is rejected before the sequence
      is drawn or any row is written. Whatever happens, nothing is committed
      here (the committed tables are not in the frame) and nothing is rolled
      back (on success the session's tables hold every write). */
  method CloneProduct(db: OracleDb, skip: bool, predecessor: Value, species: Value, classe: Value,
                      subclass: Value, onlyFixedCompany: bool)
    returns (r: Result<int, CloneError>)
    modifies db`work, db`seqProduto, db`seqUniPro, db`sessionCompany, db`trace
    ensures db.durable == old(db.durable)
    ensures !ClassificationExists(db.subClas, species, classe, subclass) ==>
      && r.Err?
      && (r.error == InvalidClassification(species, classe, subclass) || SessionError(r.error))
      && (skip ==> r.error == InvalidClassification(species, classe, subclass))
      && db.work == old(db.work) && db.seqProduto == old(db.seqProduto) && db.seqUniPro == old(db.seqUniPro)
    ensures r.Ok? ==>
      && ClassificationExists(db.subClas, species, classe, subclass)
      && r.value == old(db.seqProduto) && r.value != 0
      && db.seqProduto == old(db.seqProduto) + 1
      && |Where(old(db.work).produto, "CD_PRODUTO", predecessor)| == 1
      && ClonedFrom(db.catalog, old(db.work), db.work, predecessor, species, classe, subclass, r.value,
                    old(db.seqUniPro), onlyFixedCompany)
      && db.seqUniPro == old(db.seqUniPro) + |Where(old(db.work).uniPro, "CD_PRODUTO", predecessor)|
  {
    // Defence in depth: the pool already pins the company.
    var checked := CheckSession(db, skip, onlyFixedCompany);
    if checked.Fail? {
      return Err(checked.error);
    }

    var valid := ValidateSubClas(db, species, classe, subclass);
    if valid.Fail? {
      return Err(valid.error);
    }

    db.trace := db.trace + [NextProductId];
    var id := db.seqProduto;
    db.seqProduto := db.seqProduto + 1;
    if id == 0 {
      return Err(SequenceFailed);
    }

    var written := WriteClone(db, skip, predecessor, species, classe, subclass, id, onlyFixedCompany);
    if written.Err? {
      return Err(written.error);
    }
    return Ok(id);
  }

  /** What a product copy holds: the new code and classification, the
      registration date "now", and the other copied columns of its source. */
  lemma NewProductRowFields(pred: Row, cols: seq<string>, id: int, species: Value, classe: Value, subclass: Value)
    ensures var p := NewProductRow(pred, cols, id, species, classe, subclass);
      && Get(p, "CD_PRODUTO") == Num(id)
      && Get(p, "CD_ESPECIE") == species && Get(p, "CD_CLASSE") == classe && Get(p, "CD_SUB_CLA") == subclass
      && Get(p, "DT_CADASTRO") == SysDate
      && (forall c :: c in cols && c !in PRODUCT_SET ==> Get(p, c) == Get(pred, c))
  {
  }

  /** Retiring after copying the one predecessor row to a product other
      than the predecessor: one row more, the existing rows changed only
      where they are the predecessor, and the copy left as built. */
  lemma RetireAfterProductCopy(existing: seq<Row>, pred: Row, cols: seq<string>, id: int,
                               species: Value, classe: Value, subclass: Value, predecessor: Value)
    requires !SqlEq(Num(id), predecessor)
    ensures var e := RetireProducts(existing + NewProducts([pred], cols, id, species, classe, subclass), predecessor);
      && |e| == |existing| + 1
      && (forall i :: 0 <= i < |existing| ==>
            e[i] == if SqlEq(Get(existing[i], "CD_PRODUTO"), predecessor) then Retire(existing[i]) else existing[i])
      && e[|existing|] == NewProductRow(pred, cols, id, species, classe, subclass)
  {
    var row := NewProductRow(pred, cols, id, species, classe, subclass);
    NewProductRowFields(pred, cols, id, species, classe, subclass);
    assert (existing + NewProducts([pred], cols, id, species, classe, subclass))[|existing|] == row;
  }

  /** A successful clone adds exactly one product row: the predecessor's
      copy under the new code and classification, registered "now", with
      every other copied column taken from the predecessor. The existing
      rows stay, the predecessor's retired (as long as the new code is not
      the predecessor's own). */
  lemma CloneAddsOneProduct(t: Tables, predecessor: Value, species: Value, classe: Value, subclass: Value,
                            id: int, firstUnitId: int, cols: ColumnLists, onlyFixedCompany: bool)
    requires |Where(t.produto, "CD_PRODUTO", predecessor)| == 1
    requires !SqlEq(Num(id), predecessor)
    ensures var e := CloneEffect(t, predecessor, species, classe, subclass, id, firstUnitId, cols, onlyFixedCompany);
      var pred := Where(t.produto, "CD_PRODUTO", predecessor)[0];
      var created := e.produto[|t.produto|];
      && |e.produto| == |t.produto| + 1
      && (forall i :: 0 <= i < |t.produto| ==>
            e.produto[i] == if SqlEq(Get(t.produto[i], "CD_PRODUTO"), predecessor) then Retire(t.produto[i]) else t.produto[i])
      && pred in t.produto && SqlEq(Get(pred, "CD_PRODUTO"), predecessor)
      && Get(created, "CD_PRODUTO") == Num(id)
      && Get(created, "CD_ESPECIE") == species && Get(created, "CD_CLASSE") == classe && Get(created, "CD_SUB_CLA") == subclass
      && Get(created, "DT_CADASTRO") == SysDate
      && (forall c :: c in cols.product && c !in PRODUCT_SET ==> Get(created, c) == Get(pred, c))
  {
    var preds := Where(t.produto, "CD_PRODUTO", predecessor);
    assert preds == [preds[0]];
    RetireAfterProductCopy(t.produto, preds[0], cols.product, id, species, classe, subclass, predecessor);
    NewProductRowFields(preds[0], cols.product, id, species, classe, subclass);
  }

  /** Every unit of the predecessor is copied once, in order, to the new
      product, each with the next unit code and no barcode; the other copied
      columns come from the unit it copies. No unit row is changed. */
  lemma CloneCopiesUnits(t: Tables, predecessor: Value, species: Value, classe: Value, subclass: Value,
                         id: int, firstUnitId: int, cols: ColumnLists, onlyFixedCompany: bool)
    ensures var e := CloneEffect(t, predecessor, species, classe, subclass, id, firstUnitId, cols, onlyFixedCompany);
      var units := Where(t.uniPro, "CD_PRODUTO", predecessor);
      && |e.uniPro| == |t.uniPro| + |units|
      && e.uniPro[..|t.uniPro|] == t.uniPro
      && forall k :: 0 <= k < |units| ==>
           var u := e.uniPro[|t.uniPro| + k];
           && Get(u, "CD_UNI_PRO") == Num(firstUnitId + k)
           && Get(u, "CD_PRODUTO") == Num(id)
           && Get(u, "CD_CODIGO_DE_BARRAS") == Null
           && (forall c :: c in cols.unit && c !in UNIT_SET ==> Get(u, c) == Get(units[k], c))
  {
    var units := Where(t.uniPro, "CD_PRODUTO", predecessor);
    CloneEffectUnits(t, predecessor, species, classe, subclass, id, firstUnitId, cols, onlyFixedCompany);
    AppendUnitCopies(t.uniPro, units, cols.unit, id, firstUnitId);
  }

  /** Appending unit copies keeps the existing rows and gives each copy its
      unit code in order, the new product, no barcode and its unit's other
      copied columns. */
  lemma AppendUnitCopies(existing: seq<Row>, units: seq<Row>, cols: seq<string>, id: int, firstUnitId: int)
    ensures var e := existing + CopyUnits(units, cols, id, firstUnitId);
      && |e| == |existing| + |units|
      && e[..|existing|] == existing
      && forall k :: 0 <= k < |units| ==>
           var u := e[|existing| + k];
           && Get(u, "CD_UNI_PRO") == Num(firstUnitId + k)
           && Get(u, "CD_PRODUTO") == Num(id)
           && Get(u, "CD_CODIGO_DE_BARRAS") == Null
           && (forall c :: c in cols && c !in UNIT_SET ==> Get(u, c) == Get(units[k], c))
  {
    var e := existing + CopyUnits(units, cols, id, firstUnitId);
    assert e[..|existing|] == existing;
    forall k | 0 <= k < |units|
      ensures var u := e[|existing| + k];
        && Get(u, "CD_UNI_PRO") == Num(firstUnitId + k)
        && Get(u, "CD_PRODUTO") == Num(id)
        && Get(u, "CD_CODIGO_DE_BARRAS") == Null
        && (forall c :: c in cols && c !in UNIT_SET ==> Get(u, c) == Get(units[k], c))
    {
      assert e[|existing| + k] == UnitCopy(units[k], cols, id, firstUnitId + k);
      UnitCopyFields(units[k], cols, id, firstUnitId + k);
    }
  }

  lemma CloneEffectUnits(t: Tables, predecessor: Value, species: Value, classe: Value, subclass: Value,
                         id: int, firstUnitId: int, cols: ColumnLists, onlyFixedCompany: bool)
    ensures CloneEffect(t, predecessor, species, classe, subclass, id, firstUnitId, cols, onlyFixedCompany).uniPro
      == t.uniPro + CopyUnits(Where(t.uniPro, "CD_PRODUTO", predecessor), cols.unit, id, firstUnitId)
  {
  }

  /** The bindings a clone copies are the predecessor's, only those of the
      fixed company when asked, and all of those. */
  lemma BindingsToCopySelects(empresaProduto: seq<Row>, predecessor: Value, onlyFixedCompany: bool)
    ensures var copies := BindingsToCopy(empresaProduto, predecessor, onlyFixedCompany);
      && (forall k :: 0 <= k < |copies| ==>
            copies[k] in empresaProduto && SqlEq(Get(copies[k], "CD_PRODUTO"), predecessor)
            && (onlyFixedCompany ==> SqlEq(Get(copies[k], "CD_MULTI_EMPRESA"), Num(FIXED_COMPANY))))
      && (forall i :: 0 <= i < |empresaProduto| && SqlEq(Get(empresaProduto[i], "CD_PRODUTO"), predecessor)
            && (onlyFixedCompany ==> SqlEq(Get(empresaProduto[i], "CD_MULTI_EMPRESA"), Num(FIXED_COMPANY)))
            ==> empresaProduto[i] in copies)
  {
    var own := Where(empresaProduto, "CD_PRODUTO", predecessor);
    if onlyFixedCompany {
      forall i | 0 <= i < |empresaProduto| && SqlEq(Get(empresaProduto[i], "CD_PRODUTO"), predecessor)
          && SqlEq(Get(empresaProduto[i], "CD_MULTI_EMPRESA"), Num(FIXED_COMPANY))
        ensures empresaProduto[i] in BindingsToCopy(empresaProduto, predecessor, onlyFixedCompany)
      {
        var j :| 0 <= j < |own| && own[j] == empresaProduto[i];
      }
    }
  }

  /** Retiring after copying bindings to a product other than the
      predecessor: the existing bindings change only where they are the
      predecessor's binding to the fixed company, and each copy keeps the
      new product and its copied columns. */
  lemma RetireAfterBindingCopies(existing: seq<Row>, copies: seq<Row>, cols: seq<string>, id: int, predecessor: Value)
    requires !SqlEq(Num(id), predecessor)
    ensures var e := RetireBindings(existing + CopyBindings(copies, cols, id), predecessor);
      && |e| == |existing| + |copies|
      && (forall i :: 0 <= i < |existing| ==>
            e[i] == if IsFixedCompanyBinding(existing[i], predecessor) then Retire(existing[i]) else existing[i])
      && (forall k :: 0 <= k < |copies| ==>
            && Get(e[|existing| + k], "CD_PRODUTO") == Num(id)
            && (forall c :: c in cols && c != "CD_PRODUTO" ==> Get(e[|existing| + k], c) == Get(copies[k], c)))
  {
    var all := existing + CopyBindings(copies, cols, id);
    var e := RetireBindings(all, predecessor);
    forall k | 0 <= k < |copies|
      ensures Get(e[|existing| + k], "CD_PRODUTO") == Num(id)
      ensures forall c :: c in cols && c != "CD_PRODUTO" ==> Get(e[|existing| + k], c) == Get(copies[k], c)
    {
      var b := BindingCopy(copies[k], cols, id);
      assert all[|existing| + k] == b;
      assert Get(b, "CD_PRODUTO") == Num(id);
      assert !IsFixedCompanyBinding(b, predecessor);
    }
  }

  /** The bindings after a clone: the existing ones, the predecessor's
      binding to the fixed company retired and no other changed, then one
      copy per selected binding under the new product, with its other copied
      columns. */
  lemma CloneCopiesBindings(t: Tables, predecessor: Value, species: Value, classe: Value, subclass: Value,
                            id: int, firstUnitId: int, cols: ColumnLists, onlyFixedCompany: bool)
    requires !SqlEq(Num(id), predecessor)
    ensures var e := CloneEffect(t, predecessor, species, classe, subclass, id, firstUnitId, cols, onlyFixedCompany);
      var copies := BindingsToCopy(t.empresaProduto, predecessor, onlyFixedCompany);
      && |e.empresaProduto| == |t.empresaProduto| + |copies|
      && (forall i :: 0 <= i < |t.empresaProduto| ==>
            e.empresaProduto[i] == if IsFixedCompanyBinding(t.empresaProduto[i], predecessor)
                                   then Retire(t.empresaProduto[i]) else t.empresaProduto[i])
      && (forall k :: 0 <= k < |copies| ==>
            var b := e.empresaProduto[|t.empresaProduto| + k];
            && Get(b, "CD_PRODUTO") == Num(id)
            && (forall c :: c in cols.binding && c != "CD_PRODUTO" ==> Get(b, c) == Get(copies[k], c)))
  {
    var copies := BindingsToCopy(t.empresaProduto, predecessor, onlyFixedCompany);
    CloneEffectBindings(t, predecessor, species, classe, subclass, id, firstUnitId, cols, onlyFixedCompany);
    RetireAfterBindingCopies(t.empresaProduto, copies, cols.binding, id, predecessor);
  }

  lemma CloneEffectBindings(t: Tables, predecessor: Value, species: Value, classe: Value, subclass: Value,
                            id: int, firstUnitId: int, cols: ColumnLists, onlyFixedCompany: bool)
    ensures CloneEffect(t, predecessor, species, classe, subclass, id, firstUnitId, cols, onlyFixedCompany).empresaProduto
      == RetireBindings(t.empresaProduto + CopyBindings(BindingsToCopy(t.empresaProduto, predecessor, onlyFixedCompany),
                                                        cols.binding, id), predecessor)
  {
  }

  /** What retirement writes. */
  lemma RetireMarksRow(r: Row)
    ensures Get(Retire(r), "SN_MOVIMENTACAO") == Str("N")
    ensures Get(Retire(r), "SN_BLOQUEIO_DE_COMPRA") == Str("S")
    ensures forall c :: c != "SN_MOVIMENTACAO" && c != "SN_BLOQUEIO_DE_COMPRA" ==> Get(Retire(r), c) == Get(r, c)
  {
  }
}
