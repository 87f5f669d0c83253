// The OpenAPI specification checker: a visitor that collects, from the syntax
// tree of a view function, the workflow-controller operations it calls, the
// status codes it returns and whether it requires sign-in; and a checker that
// compares those with the status codes the view's specification documents.
module OpenApiChecker {
  import opened Wrappers
  import opened Text

  // ---------------------------------------------------------------------
  // The syntax tree of a view
  // ---------------------------------------------------------------------

  /** The value of an `ast.Constant`. */
  datatype Constant = CInt(i: int) | CBool(b: bool) | CStr(s: string) | CNone

  /** The expression nodes the visitor tells apart; every other kind is `OtherExpr` with its sub-expressions. */
  datatype Expr =
    | Name(id: string)
    | Attribute(value: Expr, attr: string)
    | Call(func: Expr, args: seq<Expr>)
    | Const(c: Constant)
    | Tuple(elts: seq<Expr>)
    | OtherExpr(parts: seq<Expr>)

  /** The statement nodes the visitor tells apart; every other kind is `OtherStmt` with its children. */
  datatype Stmt =
    | Return(value: Option<Expr>)
    | FunctionDef(name: string, decorators: seq<Expr>, body: seq<Stmt>)
    | OtherStmt(exprs: seq<Expr>, body: seq<Stmt>)

  /** What a visit collects: the fields of `ViewVisitor`. */
  datatype Findings = Findings(ops: set<string>, codes: set<int>, rwcCode: bool, signin: bool, unknown: bool)

  const Nothing := Findings({}, {}, false, false, false)

  function Merge(a: Findings, b: Findings): Findings
  {
    Findings(a.ops + b.ops, a.codes + b.codes, a.rwcCode || b.rwcCode, a.signin || b.signin, a.unknown || b.unknown)
  }

  lemma MergeAssoc(a: Findings, b: Findings, c: Findings)
    ensures Merge(Merge(a, b), c) == Merge(a, Merge(b, c))
  {
  }

  lemma MergeNothing(a: Findings)
    ensures Merge(a, Nothing) == a
  {
  }

  const ClientName := "current_rwc_api_client"
  const ApiAttr := "api"
  const StatusCodeAttr := "status_code"
  const SigninRequired := "signin_required"

  /** `check_rwc_method`: the operation a call's function names, when it is `current_rwc_api_client.api.<op>`. */
  function RwcOperation(func: Expr): Option<string>
  {
    if !func.Attribute? then None
    else if !func.value.Attribute? || func.value.attr != ApiAttr then None
    else if !func.value.value.Name? || func.value.value.id != ClientName then None
    else Some(func.attr)
  }

  /** Exactly the calls of the shape `current_rwc_api_client.api.<op>(...)` record `<op>`. */
  lemma RwcOperationShape(func: Expr, op: string)
    ensures RwcOperation(func) == Some(op) <==> func == Attribute(Attribute(Name(ClientName), ApiAttr), op)
  {
  }

  function CallFindings(func: Expr): Findings
  {
    var op := RwcOperation(func);
    if op.Some? then Findings({op.value}, {}, false, false, false) else Nothing
  }

  /** How `check_status_code` classifies a return statement. */
  datatype ReturnKind = Code(code: int) | Propagated | Undetermined

  /**
   * A two-element tuple whose second element is a `.status_code` attribute
   * propagates a code; one whose second element is an integer constant
   * returns it (a boolean is an integer, so `True` is 1); anything else,
   * including a bare `return`, is undetermined.
   */
  function ClassifyReturn(value: Option<Expr>): ReturnKind
  {
    if value.None? || !value.value.Tuple? || |value.value.elts| != 2 then Undetermined
    else
      var code := value.value.elts[1];
      if code.Attribute? && code.attr == StatusCodeAttr then Propagated
      else if code.Const? && code.c.CInt? then Code(code.c.i)
      else if code.Const? && code.c.CBool? then Code(if code.c.b then 1 else 0)
      else Undetermined
  }

  function ReturnFindings(value: Option<Expr>): Findings
  {
    match ClassifyReturn(value)
    case Code(c) => Findings({}, {c}, false, false, false)
    case Propagated => Findings({}, {}, true, false, false)
    case Undetermined => Findings({}, {}, false, false, true)
  }

  /** `check_signin_required`: a call of the bare name `signin_required`. */
  predicate IsSigninDecorator(d: Expr)
  {
    d.Call? && d.func.Name? && d.func.id == SigninRequired
  }

  /** Only the called form counts: `@signin_required()` does, `@signin_required` and `@auth.signin_required()` do not. */
  lemma SigninDecoratorShape(d: Expr)
    ensures IsSigninDecorator(d) <==> exists args :: d == Call(Name(SigninRequired), args)
  {
    if IsSigninDecorator(d) {
      assert d == Call(Name(SigninRequired), d.args);
    }
  }

  function SigninFindings(decorators: seq<Expr>): Findings
  {
    Findings({}, {}, false, exists k :: 0 <= k < |decorators| && IsSigninDecorator(decorators[k]), false)
  }

  /** Everything a visit of an expression collects. */
  function ExprFindings(e: Expr): Findings
    decreases e
  {
    match e
    case Name(_) => Nothing
    case Const(_) => Nothing
    case Attribute(v, _) => ExprFindings(v)
    case Call(f, args) => Merge(Merge(CallFindings(f), ExprFindings(f)), ExprsFindings(args))
    case Tuple(elts) => ExprsFindings(elts)
    case OtherExpr(parts) => ExprsFindings(parts)
  }

  /** Everything visits of the expressions of `es`, one after the other, collect. */
  function ExprsFindings(es: seq<Expr>): Findings
    decreases es
  {
    if es == [] then Nothing
    else Merge(ExprsFindings(es[..|es| - 1]), ExprFindings(es[|es| - 1]))
  }

  function OptExprFindings(v: Option<Expr>): Findings
  {
    if v.Some? then ExprFindings(v.value) else Nothing
  }

  /** Everything a visit of a statement collects. */
  function StmtFindings(s: Stmt): Findings
    decreases s
  {
    match s
    case Return(v) => Merge(ReturnFindings(v), OptExprFindings(v))
    case FunctionDef(_, ds, body) => Merge(Merge(SigninFindings(ds), ExprsFindings(ds)), StmtsFindings(body))
    case OtherStmt(es, body) => Merge(ExprsFindings(es), StmtsFindings(body))
  }

  function StmtsFindings(ss: seq<Stmt>): Findings
    decreases ss
  {
    if ss == [] then Nothing
    else Merge(StmtsFindings(ss[..|ss| - 1]), StmtFindings(ss[|ss| - 1]))
  }

  // ---------------------------------------------------------------------
  // `ViewVisitor`
  // ---------------------------------------------------------------------

  class ViewVisitor {
    var calledRwcOperations: set<string>
    var statusCodes: set<int>
    var returnsRwcStatusCode: bool
    var signinRequired: bool
    var unknownReturn: bool

    function Collected(): Findings
      reads this
    {
      Findings(calledRwcOperations, statusCodes, returnsRwcStatusCode, signinRequired, unknownReturn)
    }

    constructor ()
      ensures Collected() == Nothing
    {
      calledRwcOperations := {};
      statusCodes := {};
      returnsRwcStatusCode := false;
      signinRequired := false;
      unknownReturn := false;
    }

    /** `check_rwc_method`, given the called function. */
    method CheckRwcMethod(func: Expr)
      modifies this
      ensures Collected() == Merge(old(Collected()), CallFindings(func))
    {
      if !func.Attribute? {
        return;
      }
      var operationId := func.attr;
      var apiNode := func.value;
      if !apiNode.Attribute? || apiNode.attr != ApiAttr || !apiNode.value.Name? || apiNode.value.id != ClientName {
        return;
      }
      calledRwcOperations := calledRwcOperations + {operationId};
    }

    /** `check_status_code`, given the returned value. */
    method CheckStatusCode(value: Option<Expr>)
      modifies this
      ensures Collected() == Merge(old(Collected()), ReturnFindings(value))
    {
      if value.None? || !value.value.Tuple? || |value.value.elts| != 2 {
        unknownReturn := true;
        return;
      }
      var statusCode := value.value.elts[1];
      if statusCode.Attribute? && statusCode.attr == StatusCodeAttr {
        returnsRwcStatusCode := true;
      } else if statusCode.Const? && statusCode.c.CInt? {
        statusCodes := statusCodes + {statusCode.c.i};
      } else if statusCode.Const? && statusCode.c.CBool? {
        statusCodes := statusCodes + {if statusCode.c.b then 1 else 0};
      } else {
        unknownReturn := true;
      }
    }

    /** `check_signin_required`, given the decorator list. */
    method CheckSigninRequired(decorators: seq<Expr>)
      modifies this
      ensures Collected() == Merge(old(Collected()), SigninFindings(decorators))
    {
      for i := 0 to |decorators|
        invariant Collected() == Merge(old(Collected()), SigninFindings(decorators[..i]))
      {
        assert decorators[..i + 1][..i] == decorators[..i] && decorators[..i + 1][i] == decorators[i];
        if IsSigninDecorator(decorators[i]) {
          signinRequired := true;
        }
      }
      assert decorators[..|decorators|] == decorators;
    }

    /** `visit` on an expression: `visit_Call` checks calls, every node visits its children. */
    method VisitExpr(e: Expr)
      modifies this
      ensures Collected() == Merge(old(Collected()), ExprFindings(e))
      decreases e
    {
      ghost var before := Collected();
      match e
      case Name(_) =>
        MergeNothing(before);
      case Const(_) =>
        MergeNothing(before);
      case Attribute(v, _) =>
        VisitExpr(v);
      case Call(f, args) =>
        CheckRwcMethod(f);
        VisitExpr(f);
        MergeAssoc(before, CallFindings(f), ExprFindings(f));
        VisitExprs(args);
        MergeAssoc(before, Merge(CallFindings(f), ExprFindings(f)), ExprsFindings(args));
      case Tuple(elts) =>
        VisitExprs(elts);
      case OtherExpr(parts) =>
        VisitExprs(parts);
    }

    method VisitExprs(es: seq<Expr>)
      modifies this
      ensures Collected() == Merge(old(Collected()), ExprsFindings(es))
      decreases es
    {
      for i := 0 to |es|
        invariant Collected() == Merge(old(Collected()), ExprsFindings(es[..i]))
      {
        VisitExpr(es[i]);
        assert es[..i + 1][..i] == es[..i];
        MergeAssoc(old(Collected()), ExprsFindings(es[..i]), ExprFindings(es[i]));
      }
      assert es[..|es|] == es;
    }

    /** `visit` on a statement: `visit_Return` and `visit_FunctionDef` check, every node visits its children. */
    method VisitStmt(s: Stmt)
      modifies this
      ensures Collected() == Merge(old(Collected()), StmtFindings(s))
      decreases s
    {
      ghost var before := Collected();
      match s
      case Return(v) =>
        CheckStatusCode(v);
        if v.Some? {
          VisitExpr(v.value);
        } else {
          MergeNothing(Collected());
        }
        MergeAssoc(before, ReturnFindings(v), OptExprFindings(v));
      case FunctionDef(_, ds, body) =>
        CheckSigninRequired(ds);
        VisitExprs(ds);
        MergeAssoc(before, SigninFindings(ds), ExprsFindings(ds));
        VisitStmts(body);
        MergeAssoc(before, Merge(SigninFindings(ds), ExprsFindings(ds)), StmtsFindings(body));
      case OtherStmt(es, body) =>
        VisitExprs(es);
        VisitStmts(body);
        MergeAssoc(before, ExprsFindings(es), StmtsFindings(body));
    }

    method VisitStmts(ss: seq<Stmt>)
      modifies this
      ensures Collected() == Merge(old(Collected()), StmtsFindings(ss))
      decreases ss
    {
      for i := 0 to |ss|
        invariant Collected() == Merge(old(Collected()), StmtsFindings(ss[..i]))
      {
        VisitStmt(ss[i]);
        assert ss[..i + 1][..i] == ss[..i];
        MergeAssoc(old(Collected()), StmtsFindings(ss[..i]), StmtFindings(ss[i]));
      }
      assert ss[..|ss|] == ss;
    }
  }

  // ---------------------------------------------------------------------
  // The workflow controller's specification
  // ---------------------------------------------------------------------

  /** An operation of the workflow controller: its id and the keys of its `responses`. */
  datatype Operation = Operation(operationId: string, responses: seq<string>)

  /** One entry of `paths`, with its operations in order. */
  datatype PathItem = PathItem(path: string, operations: seq<Operation>)

  datatype CheckError =
    | OperationNotFound(operationId: string)  // `ValueError("RWC operation not found")`
    | BadResponseKey(key: string)             // `int()` of a key that is not a status code

  predicate IsDigit(c: char)
  {
    '0' <= c <= '9'
  }

  predicate AllDigits(s: string)
  {
    forall k :: 0 <= k < |s| ==> IsDigit(s[k])
  }

  function DigitsValue(s: string): nat
    requires AllDigits(s)
  {
    if s == [] then 0 else 10 * DigitsValue(s[..|s| - 1]) + (s[|s| - 1] as int - '0' as int)
  }

  /** `int(key)` for a response key of decimal digits. */
  function ParseCode(key: string): Option<int>
  {
    if key != [] && AllDigits(key) then Some(DigitsValue(key)) else None
  }

  lemma {:induction false} NatToStringDigits(n: nat)
    ensures AllDigits(NatToString(n)) && DigitsValue(NatToString(n)) == n
    decreases n
  {
    if n >= 10 {
      NatToStringDigits(n / 10);
      var s := NatToString(n);
      assert s[..|s| - 1] == NatToString(n / 10);
    }
  }

  /** Every status code written out in decimal reads back as itself. */
  lemma ParseCodeOfString(n: nat)
    ensures ParseCode(NatToString(n)) == Some(n)
  {
    NatToStringDigits(n);
  }

  /** `set(map(int, operation["responses"].keys()))`: the first key that is not a number fails. */
  function ResponseCodes(keys: seq<string>): (r: Result<set<int>, CheckError>)
    ensures r.Ok? ==> forall c :: c in r.value <==> exists k :: 0 <= k < |keys| && ParseCode(keys[k]) == Some(c)
  {
    if keys == [] then Ok({})
    else
      var c := ParseCode(keys[0]);
      if c.None? then Err(BadResponseKey(keys[0]))
      else
        var rest := ResponseCodes(keys[1..]);
        if rest.Err? then rest
        else
          assert forall k :: 1 <= k < |keys| ==> keys[k] == keys[1..][k - 1];
          Ok({c.value} + rest.value)
  }

  /** The first operation of the list with the id. */
  function FindInOperations(ops: seq<Operation>, id: string): (r: Option<Operation>)
  {
    if ops == [] then None
    else if ops[0].operationId == id then Some(ops[0])
    else FindInOperations(ops[1..], id)
  }

  /** The first operation with the id, searching the paths in order and each path's operations in order. */
  function FindOperation(paths: seq<PathItem>, id: string): (r: Option<Operation>)
  {
    if paths == [] then None
    else
      var here := FindInOperations(paths[0].operations, id);
      if here.Some? then here else FindOperation(paths[1..], id)
  }

  /** What `get_rwc_status_codes` answers for an operation id. */
  function RwcStatusCodes(paths: seq<PathItem>, id: string): Result<set<int>, CheckError>
  {
    var op := FindOperation(paths, id);
    if op.None? then Err(OperationNotFound(id)) else ResponseCodes(op.value.responses)
  }

  predicate Declares(paths: seq<PathItem>, id: string)
  {
    exists i, j :: 0 <= i < |paths| && 0 <= j < |paths[i].operations| && paths[i].operations[j].operationId == id
  }

  lemma {:induction false} FindInOperationsIff(ops: seq<Operation>, id: string)
    ensures FindInOperations(ops, id).Some? <==> exists j :: 0 <= j < |ops| && ops[j].operationId == id
    ensures FindInOperations(ops, id).Some? ==> FindInOperations(ops, id).value in ops
    ensures FindInOperations(ops, id).Some? ==> FindInOperations(ops, id).value.operationId == id
  {
    if ops != [] && ops[0].operationId != id {
      FindInOperationsIff(ops[1..], id);
      assert forall j :: 1 <= j < |ops| ==> ops[j] == ops[1..][j - 1];
    }
  }

  /** An operation is found exactly when some path declares its id, and what is found has that id. */
  lemma {:induction false} FindOperationIff(paths: seq<PathItem>, id: string)
    ensures FindOperation(paths, id).Some? <==> Declares(paths, id)
    ensures FindOperation(paths, id).Some? ==> FindOperation(paths, id).value.operationId == id
  {
    if paths != [] {
      FindInOperationsIff(paths[0].operations, id);
      FindOperationIff(paths[1..], id);
      assert forall i :: 1 <= i < |paths| ==> paths[i] == paths[1..][i - 1];
      if Declares(paths, id) && FindInOperations(paths[0].operations, id).None? {
        var i, j :| 0 <= i < |paths| && 0 <= j < |paths[i].operations| && paths[i].operations[j].operationId == id;
        assert i != 0;
        assert paths[1..][i - 1].operations[j].operationId == id;
      }
    }
  }

  /** An id no path declares is a `ValueError`. */
  lemma UndeclaredRaises(paths: seq<PathItem>, id: string)
    requires !Declares(paths, id)
    ensures RwcStatusCodes(paths, id) == Err(OperationNotFound(id))
  {
    FindOperationIff(paths, id);
  }

  /** `get_rwc_status_codes`: the nested search over paths and their operations. */
  method GetRwcStatusCodes(paths: seq<PathItem>, operationId: string) returns (r: Result<set<int>, CheckError>)
    ensures r == RwcStatusCodes(paths, operationId)
  {
    for i := 0 to |paths|
      invariant FindOperation(paths, operationId) == FindOperation(paths[i..], operationId)
    {
      var operations := paths[i].operations;
      for j := 0 to |operations|
        invariant FindInOperations(operations, operationId) == FindInOperations(operations[j..], operationId)
      {
        if operations[j].operationId == operationId {
          return ResponseCodes(operations[j].responses);
        }
        assert operations[j..][1..] == operations[j + 1..];
      }
      assert paths[i..][1..] == paths[i + 1..];
    }
    return Err(OperationNotFound(operationId));
  }

  // ---------------------------------------------------------------------
  // `Checker`
  // ---------------------------------------------------------------------

  /** The error lines of `check_view`. */
  datatype Issue =
    | MissingRwcCode(view: string, code: int, operationId: string)  // "missing {code} returned by `{op}` of RWC"
    | MissingViewCode(view: string, code: int)                      // "missing {code} returned by view"
    | MissingSigninCode(view: string, code: int)                    // "missing {code} returned by `signin_required`"

  /** The warning lines of `check_view`. */
  datatype Warning =
    | NoSpecification(view: string)
    | NotPropagated(view: string)
    | UnknownReturns(view: string)

  /**
   * A view function: its endpoint name, the operations of the specification
   * in its docstring with the status codes each documents (empty when there
   * is none), and the syntax tree of its source.
   */
  datatype View = View(name: string, spec: map<string, set<int>>, tree: Stmt)

  /** The codes `signin_required` can answer with. */
  const SigninCodes := {401, 403}

  /** `spec_codes`: every code some operation of the view documents. */
  function SpecCodes(spec: map<string, set<int>>): set<int>
  {
    set m, c | m in spec && c in spec[m] :: c
  }

  /** The codes an operation returns, or none when the search for them fails. */
  function CodesOrNone(paths: seq<PathItem>, id: string): set<int>
  {
    var r := RwcStatusCodes(paths, id);
    if r.Ok? then r.value else {}
  }

  /** The errors for one called operation. */
  function RwcIssues(name: string, specCodes: set<int>, paths: seq<PathItem>, id: string): set<Issue>
  {
    set c | c in CodesOrNone(paths, id) && c !in specCodes :: MissingRwcCode(name, c, id)
  }

  /** The errors for a set of called operations. */
  function RwcIssuesAll(name: string, specCodes: set<int>, paths: seq<PathItem>, ops: set<string>): set<Issue>
  {
    set op, c | op in ops && c in CodesOrNone(paths, op) && c !in specCodes :: MissingRwcCode(name, c, op)
  }

  /** The errors for the missing codes of one operation. */
  function RwcCodeIssues(name: string, op: string, missing: set<int>): set<Issue>
  {
    set c | c in missing :: MissingRwcCode(name, c, op)
  }

  lemma RwcCodeIssuesStep(name: string, op: string, done: set<int>, code: int)
    ensures RwcCodeIssues(name, op, done + {code}) == RwcCodeIssues(name, op, done) + {MissingRwcCode(name, code, op)}
  {
  }

  lemma ViewCodeIssuesStep(name: string, specCodes: set<int>, done: set<int>, code: int)
    ensures ViewCodeIssues(name, specCodes, done + {code})
         == ViewCodeIssues(name, specCodes, done) + (if code in specCodes then {} else {MissingViewCode(name, code)})
  {
  }

  /** The errors for the codes a view returns itself. */
  function ViewCodeIssues(name: string, specCodes: set<int>, codes: set<int>): set<Issue>
  {
    set c | c in codes && c !in specCodes :: MissingViewCode(name, c)
  }

  /** The errors for the codes of `signin_required`. */
  function SigninIssues(name: string, specCodes: set<int>): set<Issue>
  {
    set c | c in SigninCodes && c !in specCodes :: MissingSigninCode(name, c)
  }

  /** The errors `check_view` reports for a view with a specification, given what the visitor collected. */
  function ViewIssues(name: string, specCodes: set<int>, f: Findings, paths: seq<PathItem>): set<Issue>
  {
    (if f.rwcCode then RwcIssuesAll(name, specCodes, paths, f.ops) else {})
    + ViewCodeIssues(name, specCodes, f.codes)
    + (if f.signin then SigninIssues(name, specCodes) else {})
  }

  /** The errors for a view: none without a specification. */
  function ViewIssuesOf(paths: seq<PathItem>, view: View): set<Issue>
  {
    if view.spec == map[] then {}
    else ViewIssues(view.name, SpecCodes(view.spec), StmtFindings(view.tree), paths)
  }

  /** The warnings for a view with a specification, given what the visitor collected. */
  function FindingsWarnings(name: string, f: Findings): set<Warning>
  {
    (if f.ops != {} && !f.rwcCode then {NotPropagated(name)} else {})
    + (if f.unknown then {UnknownReturns(name)} else {})
  }

  /** The warnings for a view. */
  function ViewWarnings(view: View): set<Warning>
  {
    if view.spec == map[] then {NoSpecification(view.name)}
    else FindingsWarnings(view.name, StmtFindings(view.tree))
  }

  /** Whether checking the view stops with an error: a propagated call to an operation whose codes cannot be had. */
  predicate Fails(paths: seq<PathItem>, view: View)
  {
    var f := StmtFindings(view.tree);
    view.spec != map[] && f.rwcCode && exists op :: op in f.ops && RwcStatusCodes(paths, op).Err?
  }

  lemma RwcIssuesStep(name: string, specCodes: set<int>, paths: seq<PathItem>, done: set<string>, op: string)
    ensures RwcIssuesAll(name, specCodes, paths, done + {op})
         == RwcIssuesAll(name, specCodes, paths, done) + RwcIssues(name, specCodes, paths, op)
  {
    var l := RwcIssuesAll(name, specCodes, paths, done + {op});
    var r := RwcIssuesAll(name, specCodes, paths, done) + RwcIssues(name, specCodes, paths, op);
    forall i | i in l
      ensures i in r
    {
      var o, c :| o in done + {o} && o in done + {op} && c in CodesOrNone(paths, o) && c !in specCodes && i == MissingRwcCode(name, c, o);
      if o != op {
        assert i in RwcIssuesAll(name, specCodes, paths, done);
      }
    }
  }

  /**
   * A view's errors, by kind: a missing code of a called operation only when
   * its codes are propagated, a code the view returns that is not
   * documented, and 401 and 403 under `signin_required`.
   */
  lemma ViewIssuesIff(name: string, specCodes: set<int>, f: Findings, paths: seq<PathItem>, c: int, op: string)
    ensures MissingRwcCode(name, c, op) in ViewIssues(name, specCodes, f, paths)
        <==> f.rwcCode && op in f.ops && RwcStatusCodes(paths, op).Ok? && c in RwcStatusCodes(paths, op).value && c !in specCodes
    ensures MissingViewCode(name, c) in ViewIssues(name, specCodes, f, paths) <==> c in f.codes && c !in specCodes
    ensures MissingSigninCode(name, c) in ViewIssues(name, specCodes, f, paths) <==> f.signin && c in SigninCodes && c !in specCodes
  {
    if MissingRwcCode(name, c, op) in ViewIssues(name, specCodes, f, paths) {
      assert MissingRwcCode(name, c, op) in RwcIssuesAll(name, specCodes, paths, f.ops);
    }
    if f.rwcCode && op in f.ops && RwcStatusCodes(paths, op).Ok? && c in RwcStatusCodes(paths, op).value && c !in specCodes {
      assert c in CodesOrNone(paths, op);
      assert MissingRwcCode(name, c, op) in RwcIssuesAll(name, specCodes, paths, f.ops);
    }
  }

  /** Every error names the view it was found in. */
  lemma ViewIssuesNameView(name: string, specCodes: set<int>, f: Findings, paths: seq<PathItem>)
    ensures forall i :: i in ViewIssues(name, specCodes, f, paths) ==> i.view == name
  {
  }

  /** A non-empty set has a member. */
  lemma Member<T>(s: set<T>) returns (x: T)
    requires s != {}
    ensures x in s
  {
    x :| x in s;
  }

  class Checker {
    const rwcSpec: seq<PathItem>
    var errors: bool
    var issues: set<Issue>
    var warnings: set<Warning>

    /** `errors` is set exactly when an error has been reported. */
    predicate Valid()
      reads this
    {
      errors <==> issues != {}
    }

    constructor (rwcSpec: seq<PathItem>)
      ensures Valid() && this.rwcSpec == rwcSpec && !errors && issues == {} && warnings == {}
    {
      this.rwcSpec := rwcSpec;
      errors := false;
      issues := {};
      warnings := {};
    }

    /** `warning`. */
    method Warn(w: Warning)
      modifies this
      ensures warnings == old(warnings) + {w} && issues == old(issues) && errors == old(errors)
    {
      warnings := warnings + {w};
    }

    /** `error`: report, and remember that there were errors. */
    method Error(i: Issue)
      modifies this
      ensures errors && issues == old(issues) + {i} && warnings == old(warnings)
    {
      errors := true;
      issues := issues + {i};
    }

    /** `for code in missing_codes: self.error(...)`. */
    method ReportRwcCodes(name: string, op: string, missing: set<int>)
      requires Valid()
      modifies this
      ensures Valid() && warnings == old(warnings)
      ensures issues == old(issues) + RwcCodeIssues(name, op, missing)
    {
      var left := missing;
      ghost var done: set<int> := {};
      while left != {}
        invariant left <= missing && done == missing - left
        invariant Valid() && warnings == old(warnings)
        invariant issues == old(issues) + RwcCodeIssues(name, op, done)
      {
        ghost var some := Member(left);
        var code :| code in left;
        Error(MissingRwcCode(name, code, op));
        RwcCodeIssuesStep(name, op, done, code);
        left := left - {code};
        done := done + {code};
      }
    }

    /** `for code in visitor.status_codes: if code not in spec_codes: self.error(...)`. */
    method ReportViewCodes(name: string, codes: set<int>, specCodes: set<int>)
      requires Valid()
      modifies this
      ensures Valid() && warnings == old(warnings)
      ensures issues == old(issues) + ViewCodeIssues(name, specCodes, codes)
    {
      var left := codes;
      ghost var done: set<int> := {};
      while left != {}
        invariant left <= codes && done == codes - left
        invariant Valid() && warnings == old(warnings)
        invariant issues == old(issues) + ViewCodeIssues(name, specCodes, done)
      {
        ghost var some := Member(left);
        var code :| code in left;
        if code !in specCodes {
          Error(MissingViewCode(name, code));
        }
        ViewCodeIssuesStep(name, specCodes, done, code);
        left := left - {code};
        done := done + {code};
      }
    }

    /** `for code in (401, 403): if code not in spec_codes: self.error(...)`. */
    method ReportSigninCodes(name: string, specCodes: set<int>)
      requires Valid()
      modifies this
      ensures Valid() && warnings == old(warnings)
      ensures issues == old(issues) + SigninIssues(name, specCodes)
    {
      if 401 !in specCodes {
        Error(MissingSigninCode(name, 401));
      }
      if 403 !in specCodes {
        Error(MissingSigninCode(name, 403));
      }
      assert SigninIssues(name, specCodes)
          == (if 401 in specCodes then {} else {MissingSigninCode(name, 401)})
           + (if 403 in specCodes then {} else {MissingSigninCode(name, 403)});
    }

    /**
     * The loop over the called operations: report the codes each returns
     * that the view does not document, stopping at the first operation the
     * search for codes fails on.
     */
    method ReportRwcOperations(name: string, ops: set<string>, specCodes: set<int>) returns (failure: Option<CheckError>)
      requires Valid()
      modifies this
      ensures Valid() && warnings == old(warnings)
      ensures failure.None? <==> forall op :: op in ops ==> RwcStatusCodes(rwcSpec, op).Ok?
      ensures failure.None? ==> issues == old(issues) + RwcIssuesAll(name, specCodes, rwcSpec, ops)
      ensures failure.Some? ==> old(issues) <= issues
      ensures failure.Some? ==> exists op :: op in ops && RwcStatusCodes(rwcSpec, op) == Err(failure.value)
    {
      var left := ops;
      ghost var done: set<string> := {};
      while left != {}
        invariant left <= ops && done == ops - left
        invariant forall op :: op in done ==> RwcStatusCodes(rwcSpec, op).Ok?
        invariant Valid() && warnings == old(warnings)
        invariant issues == old(issues) + RwcIssuesAll(name, specCodes, rwcSpec, done)
      {
        ghost var some := Member(left);
        var op :| op in left;
        var codes := GetRwcStatusCodes(rwcSpec, op);
        if codes.Err? {
          return Some(codes.error);
        }
        ReportRwcCodes(name, op, codes.value - specCodes);
        RwcIssuesStep(name, specCodes, rwcSpec, done, op);
        assert RwcCodeIssues(name, op, codes.value - specCodes) == RwcIssues(name, specCodes, rwcSpec, op);
        left := left - {op};
        done := done + {op};
      }
      assert done == ops;
      return None;
    }

    /** What `check_view` does once the view's source has been visited. */
    method CheckFindings(name: string, specCodes: set<int>, f: Findings) returns (failure: Option<CheckError>)
      requires Valid()
      modifies this
      ensures Valid()
      ensures warnings == old(warnings) + FindingsWarnings(name, f)
      ensures failure.None? <==> !(f.rwcCode && exists op :: op in f.ops && RwcStatusCodes(rwcSpec, op).Err?)
      ensures failure.None? ==> issues == old(issues) + ViewIssues(name, specCodes, f, rwcSpec)
      ensures failure.Some? ==> old(issues) <= issues
      ensures failure.Some? ==> exists op :: op in f.ops && RwcStatusCodes(rwcSpec, op) == Err(failure.value)
    {
      if f.ops != {} && !f.rwcCode {
        Warn(NotPropagated(name));
      }
      if f.unknown {
        Warn(UnknownReturns(name));
      }
      failure := None;
      if f.rwcCode {
        failure := ReportRwcOperations(name, f.ops, specCodes);
        if failure.Some? {
          return;
        }
      }
      ReportViewCodes(name, f.codes, specCodes);
      if f.signin {
        ReportSigninCodes(name, specCodes);
      }
    }

    /** `check_view`; printing is recorded as the reported errors and warnings. */
    method CheckView(view: View) returns (failure: Option<CheckError>)
      requires Valid()
      modifies this
      ensures Valid()
      ensures warnings == old(warnings) + ViewWarnings(view)
      ensures failure.None? <==> !Fails(rwcSpec, view)
      ensures failure.None? ==> issues == old(issues) + ViewIssuesOf(rwcSpec, view)
      ensures failure.Some? ==> old(issues) <= issues
      ensures failure.Some? ==> exists op :: op in StmtFindings(view.tree).ops && RwcStatusCodes(rwcSpec, op) == Err(failure.value)
    {
      if view.spec == map[] {
        Warn(NoSpecification(view.name));
        return None;
      }
      var specCodes := SpecCodes(view.spec);
      var visitor := new ViewVisitor();
      visitor.VisitStmt(view.tree);
      var found := visitor.Collected();
      assert found == StmtFindings(view.tree);
      assert ViewIssuesOf(rwcSpec, view) == ViewIssues(view.name, specCodes, found, rwcSpec);
      assert ViewWarnings(view) == FindingsWarnings(view.name, found);
      failure := CheckFindings(view.name, specCodes, found);
    }
  }

  /** The errors of the first `n` views, checked in turn. */
  function IssuesUpTo(paths: seq<PathItem>, views: seq<View>, n: nat): set<Issue>
    requires n <= |views|
  {
    if n == 0 then {} else IssuesUpTo(paths, views, n - 1) + ViewIssuesOf(paths, views[n - 1])
  }

  /** The errors of all the views, checked in turn. */
  function AllIssues(paths: seq<PathItem>, views: seq<View>): set<Issue>
  {
    IssuesUpTo(paths, views, |views|)
  }

  lemma {:induction false} IssuesUpToEmptyIff(paths: seq<PathItem>, views: seq<View>, n: nat)
    requires n <= |views|
    ensures IssuesUpTo(paths, views, n) == {} <==> forall k :: 0 <= k < n ==> ViewIssuesOf(paths, views[k]) == {}
  {
    if n > 0 {
      IssuesUpToEmptyIff(paths, views, n - 1);
    }
  }

  /** There are errors exactly when some view has one. */
  lemma AllIssuesEmptyIff(paths: seq<PathItem>, views: seq<View>)
    ensures AllIssues(paths, views) == {} <==> forall k :: 0 <= k < |views| ==> ViewIssuesOf(paths, views[k]) == {}
  {
    IssuesUpToEmptyIff(paths, views, |views|);
  }

  /** None of the first `n` views stops the check. */
  predicate NoneFailUpTo(paths: seq<PathItem>, views: seq<View>, n: nat)
    requires n <= |views|
  {
    n == 0 || (NoneFailUpTo(paths, views, n - 1) && !Fails(paths, views[n - 1]))
  }

  lemma {:induction false} NoneFailUpToAll(paths: seq<PathItem>, views: seq<View>, n: nat)
    requires n <= |views| && NoneFailUpTo(paths, views, n)
    ensures forall k :: 0 <= k < n ==> !Fails(paths, views[k])
  {
    if n > 0 {
      NoneFailUpToAll(paths, views, n - 1);
    }
  }

  /** One turn of `check_openapi`'s loop: check the next view. */
  method CheckNext(checker: Checker, views: seq<View>, i: nat) returns (failure: Option<CheckError>)
    requires i < |views| && checker.Valid()
    requires checker.issues == IssuesUpTo(checker.rwcSpec, views, i) && NoneFailUpTo(checker.rwcSpec, views, i)
    modifies checker
    ensures checker.Valid()
    ensures failure.Some? ==> Fails(checker.rwcSpec, views[i])
    ensures failure.None? ==> checker.issues == IssuesUpTo(checker.rwcSpec, views, i + 1)
    ensures failure.None? ==> NoneFailUpTo(checker.rwcSpec, views, i + 1)
  {
    failure := checker.CheckView(views[i]);
  }

  /**
   * `check_openapi`: check every view in turn; the exit status is 1 when an
   * error was reported, and a failing search for an operation's codes stops
   * the command.
   */
  method CheckOpenapi(rwcSpec: seq<PathItem>, views: seq<View>) returns (exit: Result<int, CheckError>)
    ensures exit.Err? ==> exists k :: 0 <= k < |views| && Fails(rwcSpec, views[k])
    ensures exit.Ok? ==> forall k :: 0 <= k < |views| ==> !Fails(rwcSpec, views[k])
    ensures exit.Ok? ==> (exit.value == 1 <==> AllIssues(rwcSpec, views) != {})
    ensures exit.Ok? ==> (exit.value == 0 || exit.value == 1)
  {
    var checker := new Checker(rwcSpec);
    for i := 0 to |views|
      invariant checker.Valid() && checker.rwcSpec == rwcSpec
      invariant checker.issues == IssuesUpTo(rwcSpec, views, i)
      invariant NoneFailUpTo(rwcSpec, views, i)
    {
      var failure := CheckNext(checker, views, i);
      if failure.Some? {
        return Err(failure.value);
      }
    }
    NoneFailUpToAll(rwcSpec, views, |views|);
    exit := Ok(if checker.errors then 1 else 0);
  }
}
