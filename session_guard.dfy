/** The session guard: before a clone mutates anything, the session must
    be pinned to the operating company of the MV schema. */
module SessionGuard {
  import opened Wrappers
  import opened Values
  import opened Seqs
  import opened OracleStore
  import opened OracleErrors

  /** The operating company every clone runs under. */
  const FIXED_COMPANY := 4

  /** The company-switch procedures, in the order they are tried. */
  const SETTERS := ["DBAMV.PKG_MV_CONFIG", "DBAMV.MS_SET_CONFIG", "PKG_MV_CONFIG", "MS_SET_CONFIG"]

  /** DBAMV.CONFIGEST holds at least one row for `company`. */
  predicate Configured(configest: seq<Row>, company: int) {
    |Where(configest, "CD_MULTI_EMPRESA", Num(company))| >= 1
  }

  /** The index of the first switch procedure, from `from` on, that does not
      raise; `|SETTERS|` when all of them raise. */
  function FirstWorkingSetter(failing: map<string, string>, from: nat): (k: nat)
    requires from <= |SETTERS|
    ensures from <= k <= |SETTERS|
    ensures forall j :: from <= j < k ==> SETTERS[j] in failing
    ensures k < |SETTERS| ==> SETTERS[k] !in failing
    decreases |SETTERS| - from
  {
    if from == |SETTERS| || SETTERS[from] !in failing then from else FirstWorkingSetter(failing, from + 1)
  }

  /** `"<procedure>: <message>"` for each of the first `n` procedures, all of
      which raised: the attempts a failed switch reports. */
  function AttemptLog(failing: map<string, string>, n: nat): (log: seq<string>)
    requires n <= |SETTERS|
    requires forall j :: 0 <= j < n ==> SETTERS[j] in failing
    ensures |log| == n
  {
    seq(n, j requires 0 <= j < n => SETTERS[j] + ": " + failing[SETTERS[j]])
  }

  /** The calls of the first `n` switch procedures. */
  function SetterCalls(n: nat, company: int): (calls: seq<Stmt>)
    requires n <= |SETTERS|
    ensures |calls| == n
  {
    seq(n, j requires 0 <= j < n => SetEmpresa(SETTERS[j], company))
  }

  /** What LE_EMPRESA reports after a switch to `company` completed. */
  function SwitchedCompany(pinned: Option<int>, company: int): Value {
    Num(pinned.GetOr(company))
  }

  /** The switch loop of `prepararSessaoMV`: calls the switch procedures in
      order until one completes. When one does, the calls up to and
      including it are issued and the session is on `company`; when none
      does, all of them are issued, each one's message is collected and the
      session is unchanged. */
  method SwitchCompany(db: OracleDb, company: int) returns (ok: bool, errors: seq<string>)
    modifies db`trace, db`sessionCompany
    ensures ok <==> FirstWorkingSetter(db.failingSetters, 0) < |SETTERS|
    ensures ok ==>
      && db.trace == old(db.trace) + SetterCalls(FirstWorkingSetter(db.failingSetters, 0) + 1, company)
      && db.sessionCompany == SwitchedCompany(db.pinnedCompany, company)
    ensures !ok ==>
      && db.trace == old(db.trace) + SetterCalls(|SETTERS|, company)
      && errors == AttemptLog(db.failingSetters, |SETTERS|)
      && db.sessionCompany == old(db.sessionCompany)
  {
    ok := false;
    errors := [];
    var i := 0;
    while i < |SETTERS| && !ok
      invariant 0 <= i <= |SETTERS|
      invariant db.trace == old(db.trace) + SetterCalls(i, company)
      invariant !ok ==> (forall j :: 0 <= j < i ==> SETTERS[j] in db.failingSetters)
      invariant !ok ==> errors == AttemptLog(db.failingSetters, i)
      invariant !ok ==> db.sessionCompany == old(db.sessionCompany)
      invariant ok ==> 0 < i && i - 1 == FirstWorkingSetter(db.failingSetters, 0)
      invariant ok ==> db.sessionCompany == SwitchedCompany(db.pinnedCompany, company)
    {
      var setter := SETTERS[i];
      db.trace := db.trace + [SetEmpresa(setter, company)];
      assert SetterCalls(i + 1, company) == SetterCalls(i, company) + [SetEmpresa(setter, company)];
      if setter in db.failingSetters {
        errors := errors + [setter + ": " + db.failingSetters[setter]];
      } else {
        db.sessionCompany := SwitchedCompany(db.pinnedCompany, company);
        ok := true;
      }
      i := i + 1;
    }
  }

  /** `prepararSessaoMV(conn, company)`. With the test switch `skip` on it
      issues nothing. Otherwise it fails when CONFIGEST has no row for the
      company; tries the switch procedures in order and stops at the first
      that completes; fails listing every procedure and its message, in
      order, when none does; and after initialising the configuration fails
      when the session does not report the requested company. It never
      commits. */
  method PrepareSession(db: OracleDb, skip: bool, company: int) returns (r: Outcome<CloneError>)
    modifies db`trace, db`sessionCompany
    ensures skip ==> r == Pass && db.trace == old(db.trace) && db.sessionCompany == old(db.sessionCompany)
    ensures !skip && !Configured(db.configest, company) ==>
      && r == Fail(NoConfigest(company))
      && db.trace == old(db.trace) + [CountConfigest(company)]
      && db.sessionCompany == old(db.sessionCompany)
    ensures !skip && Configured(db.configest, company) && FirstWorkingSetter(db.failingSetters, 0) == |SETTERS| ==>
      && r == Fail(SwitchFailed(company, AttemptLog(db.failingSetters, |SETTERS|)))
      && db.trace == old(db.trace) + [CountConfigest(company)] + SetterCalls(|SETTERS|, company)
      && db.sessionCompany == old(db.sessionCompany)
    ensures !skip && Configured(db.configest, company) && FirstWorkingSetter(db.failingSetters, 0) < |SETTERS| ==>
      && db.sessionCompany == SwitchedCompany(db.pinnedCompany, company)
      && db.trace == old(db.trace) + [CountConfigest(company)]
                     + SetterCalls(FirstWorkingSetter(db.failingSetters, 0) + 1, company)
                     + [InitConfigest, ReadSessionCompany]
      && r == (if JsNumber(db.sessionCompany) == Some(company) then Pass
               else Fail(ContextMismatch(company, db.sessionCompany)))
  {
    if skip {
      return Pass;
    }
    db.trace := db.trace + [CountConfigest(company)];
    var qtd := |Where(db.configest, "CD_MULTI_EMPRESA", Num(company))|;
    if qtd < 1 {
      return Fail(NoConfigest(company));
    }

    var ok, errors := SwitchCompany(db, company);
    if !ok {
      return Fail(SwitchFailed(company, errors));
    }

    db.trace := db.trace + [InitConfigest];
    db.trace := db.trace + [ReadSessionCompany];
    var empSessao := db.sessionCompany;
    if JsNumber(empSessao) != Some(company) {
      return Fail(ContextMismatch(company, empSessao));
    }
    return Pass;
  }
}
