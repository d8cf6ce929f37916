/** The errors the clone engine and the session guard throw, and the
    messages the processing loop records for them. */
module OracleErrors {
  import opened Values
  import opened Text

  /** The message the processing loop throws for a predecessor that was
      already cloned, and the status it records for it. */
  const DUPLICATE_SENTINEL := "DUPLICADO_HISTORICO"

  datatype CloneError =
    | InvalidIdentifier(name: string)
    | TableNotFound(owner: string, table: string)
    | NoCloneableColumns(owner: string, table: string)
    | NoConfigest(company: int)
    | SwitchFailed(company: int, attempts: seq<string>)
    | ContextMismatch(expected: int, actual: Value)
    | NotCompany4(actual: Value)
    | InvalidClassification(species: Value, classe: Value, subclass: Value)
    | SequenceFailed
    | PredecessorNotFound(predecessor: Value)

  /** An error of the session guard or of the clone's company check. */
  predicate SessionError(e: CloneError) {
    e.NoConfigest? || e.SwitchFailed? || e.ContextMismatch? || e.NotCompany4?
  }

  /** `head + rest`, which cannot be the sentinel when `head` does not start
      the way the sentinel does. */
  function Prefixed(head: string, rest: string): (m: string)
    requires head != "" && head[0] != DUPLICATE_SENTINEL[0]
    ensures m != DUPLICATE_SENTINEL
  {
    var m := head + rest;
    assert m[0] == head[0];
    m
  }

  /** The `message` of the thrown `Error`. None of them is the duplicate
      sentinel, so a clone failure is never recorded as a duplicate. */
  function Message(e: CloneError): (m: string)
    ensures m != DUPLICATE_SENTINEL
  {
    match e
      case InvalidIdentifier(name) => Prefixed("Identificador inválido: ", name)
      case TableNotFound(owner, table) => Prefixed("Tabela não encontrada ou sem acesso: ", owner + "." + table)
      case NoCloneableColumns(owner, table) =>
        Prefixed("Nenhuma coluna disponível para clonagem em ", owner + "." + table + " após exclusões.")
      case NoConfigest(company) => Prefixed("Empresa ", IntToString(company) + " sem registro em DBAMV.CONFIGEST.")
      case SwitchFailed(company, attempts) =>
        Prefixed("Falha ao executar set_empresa(", IntToString(company) + "). Tentativas:\n- " + Join(attempts, "\n- "))
      case ContextMismatch(expected, actual) =>
        Prefixed("Contexto MV divergente. Esperado=", IntToString(expected) + ", Sessão=" + ValueToString(actual))
      case NotCompany4(actual) => Prefixed("Sessão não está na empresa 4. LE_EMPRESA=", ValueToString(actual))
      case InvalidClassification(species, classe, subclass) =>
        Prefixed("Classificação ", "inexistente em SUB_CLAS: especie=" + ValueToString(species)
          + ", classe=" + ValueToString(classe) + ", sub=" + ValueToString(subclass))
      case SequenceFailed => "Falha ao obter SEQ_PRODUTO.NEXTVAL."
      case PredecessorNotFound(predecessor) =>
        Prefixed("Produto ", "antecessor não encontrado: CD_PRODUTO=" + ValueToString(predecessor))
  }
}
