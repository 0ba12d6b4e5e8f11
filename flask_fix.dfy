/** The hooks of `FixFlaskConfig` (src/core_codemods/secure_flask_session_config.py)
    as functions on the fixer's state, threaded through the post-order traversal
    that drives them, and the module-level decision of
    `SecureFlaskSessionConfig.transform_module_impl`. The imperative classes in
    module FlaskConfig are proved to compute exactly these. */
module FlaskFix {
  import opened Syntax
  import opened FlaskValues

  /** What name resolution must return for a call to construct a Flask app. */
  const FlaskName := "flask.Flask"

  /** The rule's inputs that come from elsewhere: `find_base_name` (name
      resolution through the file's imports) and `CHANGE_DESCRIPTION`; and
      `appNames`, the names the module assigns a `flask.Flask(...)` call to,
      which are all the values `flask_app_name` can take. */
  datatype FlaskEnv = FlaskEnv(resolve: Expr -> string, description: string, appNames: set<Identifier>)

  /** The fixer's state: `flask_app_name`, `configs_to_write`, and the file
      context's `codemod_changes`. */
  datatype FixState = FixState(appName: string, pending: Configs, changes: seq<Change>)

  /** The parent of a call as the parent-node provider reports it: the
      assignment whose value it is (with that assignment's first target), or
      anything else. */
  datatype Parent = AssignedTo(target: Expr) | OtherParent

  /** `__init__`: no app yet, every secure setting pending. */
  function InitialState(changes: seq<Change>): FixState
  {
    FixState("", SecureSessionConfigs, changes)
  }

  /** The app name, once stored, is one of the module's app names. */
  predicate AppNameListed(env: FlaskEnv, st: FixState)
  {
    st.appName == "" || st.appName in env.appNames
  }

  /** How a state may evolve: an identified app stays identified, changes are
      only appended, and pending entries are only removed. */
  predicate Evolves(before: FixState, after: FixState)
  {
    && (before.appName != "" ==> after.appName != "")
    && before.changes <= after.changes
    && (forall e :: e in after.pending ==> e in before.pending)
  }

  // ---------------------------------------------------------------------------
  // Matching `app.config`
  // ---------------------------------------------------------------------------

  function AppConfig(app: Identifier): Expr
  {
    Attribute(Name(app), "config")
  }

  /** `_is_config_update_call`: the callee is `app.config.update`. */
  predicate IsConfigUpdateCall(func: Expr, app: Identifier)
  {
    func == Attribute(AppConfig(app), "update")
  }

  /** `_is_config_subscript`: the target is `app.config[...]`. */
  predicate IsConfigSubscript(target: Expr, app: Identifier)
  {
    target.Subscript? && target.value == AppConfig(app)
  }

  /** A callee of the shape `name.config.update`, whatever the name. */
  predicate UpdateShaped(func: Expr)
  {
    func.Attribute? && func.attr == "update" && func.value.Attribute?
    && func.value.attr == "config" && func.value.value.Name?
  }

  /** A callee `name.config.update` where `name` is one of the module's app names. */
  predicate AppUpdateCall(env: FlaskEnv, func: Expr)
  {
    UpdateShaped(func) && func.value.value.id in env.appNames
  }

  predicate AllKeyword(args: seq<Arg>)
  {
    forall i :: 0 <= i < |args| ==> args[i].keyword.Some?
  }

  // ---------------------------------------------------------------------------
  // The hooks
  // ---------------------------------------------------------------------------

  /** `_store_flask_app`: an app created as the value of an assignment is named
      by the assignment's first target. */
  function StoreFlaskApp(parent: Parent, st: FixState): (r: FixState)
    requires parent.AssignedTo? ==> parent.target.Name?
    ensures parent.AssignedTo? ==> r == st.(appName := parent.target.id)
    ensures parent.OtherParent? ==> r == st
  {
    match parent
    case AssignedTo(target) => st.(appName := target.id)
    case OtherParent => st
  }

  /** One argument of `call_node_with_secure_configs`: a secure setting whose
      value is not acceptable gets the replacement value. */
  function RewriteArg(a: Arg): (r: Arg)
    requires a.keyword.Some?
    ensures r.keyword == a.keyword
    ensures !IsSecureKey(a.keyword.value) ==> r == a
    ensures IsSecureKey(a.keyword.value) ==> TrueValue(r.value) in AcceptableValues(a.keyword.value)
    ensures IsSecureKey(a.keyword.value) && TrueValue(a.value) in AcceptableValues(a.keyword.value) ==> r == a
    ensures IsSecureKey(a.keyword.value) && TrueValue(a.value) !in AcceptableValues(a.keyword.value) ==>
              r.value == SecureConfigExpr(a.keyword.value)
  {
    var key := a.keyword.value;
    if IsSecureKey(key) && TrueValue(a.value) !in AcceptableValues(key) then
      SecureReplacementAccepted(key);
      Arg(a.keyword, SecureConfigExpr(key))
    else a
  }

  /** `SESSION_COOKIE_SAMESITE='None'` gets the first-ranked policy, `'Lax'`,
      not the also acceptable `'Strict'`. */
  lemma SameSiteGetsLax()
    ensures RewriteArg(Arg(Some("SESSION_COOKIE_SAMESITE"), SimpleString("None")))
         == Arg(Some("SESSION_COOKIE_SAMESITE"), SimpleString("Lax"))
  {
    assert IsSecureKey("SESSION_COOKIE_SAMESITE");
    assert AcceptableValues("SESSION_COOKIE_SAMESITE") == [PyStr("Lax"), PyStr("Strict")];
  }

  /** Rewriting an argument twice is rewriting it once. */
  lemma RewriteArgIdempotent(a: Arg)
    requires a.keyword.Some?
    ensures RewriteArg(RewriteArg(a)) == RewriteArg(a)
  {
  }

  function RewriteArgs(args: seq<Arg>): seq<Arg>
    requires AllKeyword(args)
  {
    seq(|args|, i requires 0 <= i < |args| => RewriteArg(args[i]))
  }

  /** The secure settings an `update` call writes. */
  function WrittenKeys(args: seq<Arg>): set<string>
  {
    set i | 0 <= i < |args| && args[i].keyword.Some? && IsSecureKey(args[i].keyword.value)
      :: args[i].keyword.value
  }

  /** `call_node_with_secure_configs`, with the change recorded when the argument
      list differs. */
  function CallWithSecureConfigs(env: FlaskEnv, original: Expr, updated: Expr, st: FixState): (r: (Expr, FixState))
    requires original.Call? && updated.Call? && AllKeyword(updated.args)
    ensures r.0 == Call(updated.func, RewriteArgs(updated.args), updated.pos)
    ensures r.1.appName == st.appName
    ensures r.1.pending == Without(st.pending, WrittenKeys(updated.args))
    ensures r.1.changes == st.changes
              + (if r.0.args == updated.args then [] else [Change(LineNumber(original.pos.startLine), env.description)])
  {
    var newArgs := RewriteArgs(updated.args);
    var changes := if updated.args != newArgs
      then st.changes + [Change(LineNumber(original.pos.startLine), env.description)]
      else st.changes;
    (updated.(args := newArgs), FixState(st.appName, Without(st.pending, WrittenKeys(updated.args)), changes))
  }

  /** After an `update` call every secure setting it writes has an acceptable
      value, and a change is recorded exactly when some written value was not
      acceptable. */
  lemma {:induction false} UpdateCallSettles(env: FlaskEnv, original: Expr, updated: Expr, st: FixState)
    requires original.Call? && updated.Call? && AllKeyword(updated.args)
    ensures var r := CallWithSecureConfigs(env, original, updated, st);
            && (forall i :: 0 <= i < |r.0.args| && IsSecureKey(r.0.args[i].keyword.value) ==>
                  TrueValue(r.0.args[i].value) in AcceptableValues(r.0.args[i].keyword.value))
            && (r.1.changes != st.changes <==>
                  exists i :: 0 <= i < |updated.args| && IsSecureKey(updated.args[i].keyword.value)
                              && TrueValue(updated.args[i].value) !in AcceptableValues(updated.args[i].keyword.value))
  {
    var args := updated.args;
    var r := CallWithSecureConfigs(env, original, updated, st);
    if exists i :: 0 <= i < |args| && IsSecureKey(args[i].keyword.value)
                   && TrueValue(args[i].value) !in AcceptableValues(args[i].keyword.value) {
      var i :| 0 <= i < |args| && IsSecureKey(args[i].keyword.value)
               && TrueValue(args[i].value) !in AcceptableValues(args[i].keyword.value);
      assert r.0.args[i] != args[i];
    } else {
      assert r.0.args == args;
    }
  }

  /** Arguments with keys outside the table pass through unchanged and in place. */
  lemma OtherArgsUntouched(env: FlaskEnv, original: Expr, updated: Expr, st: FixState, i: int)
    requires original.Call? && updated.Call? && AllKeyword(updated.args)
    requires 0 <= i < |updated.args| && !IsSecureKey(updated.args[i].keyword.value)
    ensures CallWithSecureConfigs(env, original, updated, st).0.args[i] == updated.args[i]
  {
  }

  /** A Python sequence value: libcst keeps a call's arguments in a tuple, the
      rule collects the new ones in a list. */
  datatype PySeq = PyTuple(items: seq<Arg>) | PyList(items: seq<Arg>)

  /** Python `==` on sequences: a tuple never equals a list. */
  predicate PySeqEqual(a: PySeq, b: PySeq)
  {
    a.PyTuple? == b.PyTuple? && a.items == b.items
  }

  /** `call_node_with_secure_configs` as written: it compares the node's argument
      tuple with the new argument list. */
  function CallWithSecureConfigsAsWritten(env: FlaskEnv, original: Expr, updated: Expr, st: FixState): (r: (Expr, FixState))
    requires original.Call? && updated.Call? && AllKeyword(updated.args)
    ensures (r.0, r.1.appName, r.1.pending) == (CallWithSecureConfigs(env, original, updated, st).0, st.appName,
                                                 CallWithSecureConfigs(env, original, updated, st).1.pending)
  {
    var newArgs := RewriteArgs(updated.args);
    var changes := if !PySeqEqual(PyTuple(updated.args), PyList(newArgs))
      then st.changes + [Change(LineNumber(original.pos.startLine), env.description)]
      else st.changes;
    (updated.(args := newArgs), FixState(st.appName, Without(st.pending, WrittenKeys(updated.args)), changes))
  }

  /** As written, every `app.config.update(...)` call records a change, even
      `app.config.update(SESSION_COOKIE_SECURE=True)`, which is already secure and
      which the corrected comparison leaves unreported. */
  lemma AsWrittenReportsSecureCall(env: FlaskEnv, st: FixState)
    ensures var call := Call(Attribute(AppConfig("app"), "update"),
                             [Arg(Some("SESSION_COOKIE_SECURE"), Name("True"))], Position(3, 3));
            && CallWithSecureConfigsAsWritten(env, call, call, st).1.changes
               == st.changes + [Change(LineNumber(3), env.description)]
            && CallWithSecureConfigs(env, call, call, st).1.changes == st.changes
  {
    SecureTrueArgKept();
  }

  /** `SESSION_COOKIE_SECURE=True` is kept as it is. */
  lemma SecureTrueArgKept()
    ensures var args := [Arg(Some("SESSION_COOKIE_SECURE"), Name("True"))];
            RewriteArgs(args) == args
  {
    var arg := Arg(Some("SESSION_COOKIE_SECURE"), Name("True"));
    assert IsSecureKey("SESSION_COOKIE_SECURE");
    assert Strings.Lower("True") == "true";
    assert RewriteArg(arg) == arg;
  }

  /** As written, the change list grows by one on every call, whatever its arguments. */
  lemma AsWrittenAlwaysReports(env: FlaskEnv, original: Expr, updated: Expr, st: FixState)
    requires original.Call? && updated.Call? && AllKeyword(updated.args)
    ensures CallWithSecureConfigsAsWritten(env, original, updated, st).1.changes
         == st.changes + [Change(LineNumber(original.pos.startLine), env.description)]
  {
  }

  /** `leave_Call`: a call resolving to `flask.Flask` may name the app; then an
      `app.config.update(...)` call has its settings secured. */
  function LeaveCall(env: FlaskEnv, original: Expr, updated: Expr, parent: Parent, st: FixState): (r: (Expr, FixState))
    requires original.Call? && updated.Call?
    requires AppNameListed(env, st) && ParentSupported(env, original, parent)
    requires AppUpdateCall(env, original.func) ==> AllKeyword(updated.args)
    ensures r.0.Call?
    ensures Evolves(st, r.1) && AppNameListed(env, r.1)
    ensures env.resolve(original.func) == FlaskName && parent.AssignedTo? ==> r.1.appName == parent.target.id
    ensures !(env.resolve(original.func) == FlaskName && parent.AssignedTo?) ==> r.1.appName == st.appName
    ensures (r.1.appName == "" || !IsConfigUpdateCall(original.func, r.1.appName)) ==>
              r.0 == updated && r.1.pending == st.pending && r.1.changes == st.changes
    ensures r.1.appName != "" && IsConfigUpdateCall(original.func, r.1.appName) ==>
              && r.0 == updated.(args := RewriteArgs(updated.args))
              && r.1.pending == Without(st.pending, WrittenKeys(updated.args))
              && r.1.changes == st.changes
                   + (if r.0.args == updated.args then [] else [Change(LineNumber(original.pos.startLine), env.description)])
    ensures st.appName == "" && r.1.appName == "" ==> r == (updated, st)
  {
    var s1 := if env.resolve(original.func) == FlaskName then StoreFlaskApp(parent, st) else st;
    if s1.appName != "" && IsConfigUpdateCall(original.func, s1.appName) then
      var r := CallWithSecureConfigs(env, original, updated, s1);
      assert forall e :: e in r.1.pending ==> e in st.pending;
      r
    else (updated, s1)
  }

  /** `assign_node_with_secure_config`: `app.config[key] = value`. */
  function AssignWithSecureConfig(env: FlaskEnv, original: Stmt, updated: Stmt, st: FixState): (r: (Stmt, FixState))
    requires original.Assign? && updated.Assign? && |updated.targets| >= 1 && updated.targets[0].Subscript?
    ensures r.0.Assign? && (r.0 == updated || r.0 == updated.(value := r.0.value))
    ensures r.1.appName == st.appName
    ensures var key := TrueValue(updated.targets[0].index);
            if key.PyStr? && IsSecureKey(key.s) then
              && r.1.pending == RemoveConfig(st.pending, key.s)
              && TrueValue(r.0.value) in AcceptableValues(key.s)
              && (r.0 == updated <==> TrueValue(updated.value) in AcceptableValues(key.s))
              && (TrueValue(updated.value) !in AcceptableValues(key.s) ==>
                    r.0 == updated.(value := SecureConfigExpr(key.s)))
              && r.1.changes == st.changes
                   + (if r.0 == updated then [] else [Change(LineNumber(original.pos.startLine), env.description)])
            else r == (updated, st)
  {
    var key := TrueValue(updated.targets[0].index);
    if key.PyStr? && IsSecureKey(key.s) then
      var pending := RemoveConfig(st.pending, key.s);
      if TrueValue(updated.value) !in AcceptableValues(key.s) then
        SecureReplacementAccepted(key.s);
        var safe := SecureConfigExpr(key.s);
        (updated.(value := safe),
         FixState(st.appName, pending, st.changes + [Change(LineNumber(original.pos.startLine), env.description)]))
      else (updated, st.(pending := pending))
    else (updated, st)
  }

  /** `leave_Assign`: once the app is known, `app.config[...] = ...` is checked. */
  function LeaveAssign(env: FlaskEnv, original: Stmt, updated: Stmt, st: FixState): (r: (Stmt, FixState))
    requires original.Assign? && updated.Assign?
    requires |original.targets| >= 1 && |updated.targets| >= 1
    requires original.targets[0].Subscript? ==> updated.targets[0].Subscript?
    ensures r.0.Assign? && r.0.targets == updated.targets && r.0.pos == updated.pos
    ensures Evolves(st, r.1) && r.1.appName == st.appName
    ensures st.appName == "" ==> r == (updated, st)
    ensures st.appName != "" && !IsConfigSubscript(original.targets[0], st.appName) ==> r == (updated, st)
    ensures st.appName != "" && IsConfigSubscript(original.targets[0], st.appName) ==>
              r == AssignWithSecureConfig(env, original, updated, st)
  {
    if st.appName != "" && IsConfigSubscript(original.targets[0], st.appName) then
      var r := AssignWithSecureConfig(env, original, updated, st);
      assert forall e :: e in r.1.pending ==> e in st.pending;
      r
    else (updated, st)
  }

  // ---------------------------------------------------------------------------
  // Inputs the rule handles
  // ---------------------------------------------------------------------------

  /** Every `app.config.update(...)` call on one of the module's app names passes
      keyword arguments only (the rule reads each argument's keyword). */
  predicate SupportedExpr(env: FlaskEnv, e: Expr)
    decreases e
  {
    match e
    case Name(_) => true
    case SimpleString(_) => true
    case Integer(_) => true
    case Attribute(v, _) => SupportedExpr(env, v)
    case Call(func, args, _) =>
      && SupportedExpr(env, func)
      && (AppUpdateCall(env, func) ==> AllKeyword(args))
      && forall i :: 0 <= i < |args| ==> SupportedExpr(env, args[i].value)
    case Subscript(v, index) => SupportedExpr(env, v) && SupportedExpr(env, index)
    case List(elements) => forall i :: 0 <= i < |elements| ==> SupportedExpr(env, elements[i])
    case Tuple(elements) => forall i :: 0 <= i < |elements| ==> SupportedExpr(env, elements[i])
    case Dict(elements) => forall i :: 0 <= i < |elements| ==> SupportedExpr(env, elements[i])
    case Comparison(left, comparisons) =>
      SupportedExpr(env, left) && forall i :: 0 <= i < |comparisons| ==> SupportedExpr(env, comparisons[i].comparator)
    case UnaryOperation(_, x) => SupportedExpr(env, x)
  }

  /** A Flask app created as the value of an assignment is assigned to a plain
      name (the rule reads that target's name), one of the module's app names. */
  predicate ParentSupported(env: FlaskEnv, e: Expr, parent: Parent)
  {
    e.Call? && env.resolve(e.func) == FlaskName && parent.AssignedTo? ==>
      parent.target.Name? && parent.target.id in env.appNames
  }

  predicate SupportedStmt(env: FlaskEnv, s: Stmt)
    decreases s
  {
    match s
    case ExprStmt(x) => SupportedExpr(env, x)
    case Assign(targets, value, _) =>
      && |targets| >= 1
      && (forall i :: 0 <= i < |targets| ==> SupportedExpr(env, targets[i]))
      && SupportedExpr(env, value)
      && ParentSupported(env, value, AssignedTo(targets[0]))
    case If(test, body, orelse, _) =>
      && SupportedExpr(env, test)
      && (forall i :: 0 <= i < |body| ==> SupportedStmt(env, body[i]))
      && (forall i :: 0 <= i < |orelse| ==> SupportedStmt(env, orelse[i]))
    case Compound(header, nested, _) =>
      && (forall i :: 0 <= i < |header| ==> SupportedExpr(env, header[i]))
      && (forall i :: 0 <= i < |nested| ==> SupportedStmt(env, nested[i]))
    case Source(_) => true
    case Pass => true
  }

  predicate SupportedBody(env: FlaskEnv, body: seq<Stmt>)
  {
    forall i :: 0 <= i < |body| ==> SupportedStmt(env, body[i])
  }

  // ---------------------------------------------------------------------------
  // Where an app is created
  // ---------------------------------------------------------------------------

  /** Some call in `e` resolves to `flask.Flask` and is the value of an assignment. */
  predicate CreatesAppExpr(env: FlaskEnv, e: Expr, parent: Parent)
    decreases e
  {
    match e
    case Name(_) => false
    case SimpleString(_) => false
    case Integer(_) => false
    case Attribute(v, _) => CreatesAppExpr(env, v, OtherParent)
    case Call(func, args, _) =>
      || (env.resolve(func) == FlaskName && parent.AssignedTo?)
      || CreatesAppExpr(env, func, OtherParent)
      || exists i :: 0 <= i < |args| && CreatesAppExpr(env, args[i].value, OtherParent)
    case Subscript(v, index) => CreatesAppExpr(env, v, OtherParent) || CreatesAppExpr(env, index, OtherParent)
    case List(elements) => exists i :: 0 <= i < |elements| && CreatesAppExpr(env, elements[i], OtherParent)
    case Tuple(elements) => exists i :: 0 <= i < |elements| && CreatesAppExpr(env, elements[i], OtherParent)
    case Dict(elements) => exists i :: 0 <= i < |elements| && CreatesAppExpr(env, elements[i], OtherParent)
    case Comparison(left, comparisons) =>
      || CreatesAppExpr(env, left, OtherParent)
      || exists i :: 0 <= i < |comparisons| && CreatesAppExpr(env, comparisons[i].comparator, OtherParent)
    case UnaryOperation(_, x) => CreatesAppExpr(env, x, OtherParent)
  }

  predicate CreatesAppStmt(env: FlaskEnv, s: Stmt)
    decreases s
  {
    match s
    case ExprStmt(x) => CreatesAppExpr(env, x, OtherParent)
    case Assign(targets, value, _) =>
      || (exists i :: 0 <= i < |targets| && CreatesAppExpr(env, targets[i], OtherParent))
      || (|targets| >= 1 && CreatesAppExpr(env, value, AssignedTo(targets[0])))
    case If(test, body, orelse, _) =>
      || CreatesAppExpr(env, test, OtherParent)
      || (exists i :: 0 <= i < |body| && CreatesAppStmt(env, body[i]))
      || (exists i :: 0 <= i < |orelse| && CreatesAppStmt(env, orelse[i]))
    case Compound(header, nested, _) =>
      || (exists i :: 0 <= i < |header| && CreatesAppExpr(env, header[i], OtherParent))
      || (exists i :: 0 <= i < |nested| && CreatesAppStmt(env, nested[i]))
    case Source(_) => false
    case Pass => false
  }

  predicate CreatesAppBody(env: FlaskEnv, body: seq<Stmt>)
  {
    exists i :: 0 <= i < |body| && CreatesAppStmt(env, body[i])
  }

  // ---------------------------------------------------------------------------
  // The traversal: children left to right, then the node's own hook
  // ---------------------------------------------------------------------------

  function VisitExpr(env: FlaskEnv, e: Expr, parent: Parent, st: FixState): (r: (Expr, FixState))
    requires SupportedExpr(env, e) && ParentSupported(env, e, parent) && AppNameListed(env, st)
    ensures Evolves(st, r.1) && AppNameListed(env, r.1)
    ensures r.1.appName == "" <==> st.appName == "" && !CreatesAppExpr(env, e, parent)
    ensures st.appName == "" && r.1.appName == "" ==> r == (e, st)
    ensures e.Call? ==> r.0.Call?
    ensures e.Subscript? ==> r.0.Subscript?
    decreases e
  {
    match e
    case Name(_) => (e, st)
    case SimpleString(_) => (e, st)
    case Integer(_) => (e, st)
    case Attribute(v, attr) =>
      var (v', s1) := VisitExpr(env, v, OtherParent, st);
      (Attribute(v', attr), s1)
    case Call(func, args, pos) =>
      var (func', s1) := VisitExpr(env, func, OtherParent, st);
      var (args', s2) := VisitArgs(env, args, s1);
      LeaveCall(env, e, Call(func', args', pos), parent, s2)
    case Subscript(v, index) =>
      var (v', s1) := VisitExpr(env, v, OtherParent, st);
      var (index', s2) := VisitExpr(env, index, OtherParent, s1);
      (Subscript(v', index'), s2)
    case List(elements) =>
      var (elements', s1) := VisitExprs(env, elements, st);
      (List(elements'), s1)
    case Tuple(elements) =>
      var (elements', s1) := VisitExprs(env, elements, st);
      (Tuple(elements'), s1)
    case Dict(elements) =>
      var (elements', s1) := VisitExprs(env, elements, st);
      (Dict(elements'), s1)
    case Comparison(left, comparisons) =>
      var (left', s1) := VisitExpr(env, left, OtherParent, st);
      var (comparisons', s2) := VisitComparisons(env, comparisons, s1);
      (Comparison(left', comparisons'), s2)
    case UnaryOperation(op, x) =>
      var (x', s1) := VisitExpr(env, x, OtherParent, st);
      (UnaryOperation(op, x'), s1)
  }

  function VisitExprs(env: FlaskEnv, es: seq<Expr>, st: FixState): (r: (seq<Expr>, FixState))
    requires forall i :: 0 <= i < |es| ==> SupportedExpr(env, es[i])
    requires AppNameListed(env, st)
    ensures Evolves(st, r.1) && AppNameListed(env, r.1)
    ensures r.1.appName == "" <==>
              st.appName == "" && !exists i :: 0 <= i < |es| && CreatesAppExpr(env, es[i], OtherParent)
    ensures st.appName == "" && r.1.appName == "" ==> r == (es, st)
    ensures |r.0| == |es|
    ensures forall i :: 0 <= i < |es| && es[i].Subscript? ==> r.0[i].Subscript?
    decreases es
  {
    if es == [] then ([], st)
    else
      var (first, s1) := VisitExpr(env, es[0], OtherParent, st);
      var (rest, s2) := VisitExprs(env, es[1..], s1);
      assert forall i :: 1 <= i < |es| ==> es[i] == es[1..][i - 1];
      assert es == [es[0]] + es[1..];
      ([first] + rest, s2)
  }

  function VisitArg(env: FlaskEnv, a: Arg, st: FixState): (r: (Arg, FixState))
    requires SupportedExpr(env, a.value) && AppNameListed(env, st)
    ensures Evolves(st, r.1) && AppNameListed(env, r.1)
    ensures r.1.appName == "" <==> st.appName == "" && !CreatesAppExpr(env, a.value, OtherParent)
    ensures st.appName == "" && r.1.appName == "" ==> r == (a, st)
    ensures r.0.keyword == a.keyword
    decreases a
  {
    var (v', s1) := VisitExpr(env, a.value, OtherParent, st);
    (Arg(a.keyword, v'), s1)
  }

  function VisitArgs(env: FlaskEnv, args: seq<Arg>, st: FixState): (r: (seq<Arg>, FixState))
    requires forall i :: 0 <= i < |args| ==> SupportedExpr(env, args[i].value)
    requires AppNameListed(env, st)
    ensures Evolves(st, r.1) && AppNameListed(env, r.1)
    ensures r.1.appName == "" <==>
              st.appName == "" && !exists i :: 0 <= i < |args| && CreatesAppExpr(env, args[i].value, OtherParent)
    ensures st.appName == "" && r.1.appName == "" ==> r == (args, st)
    ensures |r.0| == |args| && forall i :: 0 <= i < |args| ==> r.0[i].keyword == args[i].keyword
    decreases args
  {
    if args == [] then ([], st)
    else
      var (first, s1) := VisitArg(env, args[0], st);
      var (rest, s2) := VisitArgs(env, args[1..], s1);
      assert forall i :: 1 <= i < |args| ==> args[i] == args[1..][i - 1];
      assert args == [args[0]] + args[1..];
      assert (exists i :: 0 <= i < |args| && CreatesAppExpr(env, args[i].value, OtherParent))
         <==> CreatesAppExpr(env, args[0].value, OtherParent)
              || exists i :: 0 <= i < |args[1..]| && CreatesAppExpr(env, args[1..][i].value, OtherParent);
      ([first] + rest, s2)
  }

  function VisitComparison(env: FlaskEnv, c: ComparisonTarget, st: FixState): (r: (ComparisonTarget, FixState))
    requires SupportedExpr(env, c.comparator) && AppNameListed(env, st)
    ensures Evolves(st, r.1) && AppNameListed(env, r.1)
    ensures r.1.appName == "" <==> st.appName == "" && !CreatesAppExpr(env, c.comparator, OtherParent)
    ensures st.appName == "" && r.1.appName == "" ==> r == (c, st)
    decreases c
  {
    var (x', s1) := VisitExpr(env, c.comparator, OtherParent, st);
    (ComparisonTarget(c.operator, x'), s1)
  }

  function VisitComparisons(env: FlaskEnv, cs: seq<ComparisonTarget>, st: FixState): (r: (seq<ComparisonTarget>, FixState))
    requires forall i :: 0 <= i < |cs| ==> SupportedExpr(env, cs[i].comparator)
    requires AppNameListed(env, st)
    ensures Evolves(st, r.1) && AppNameListed(env, r.1)
    ensures r.1.appName == "" <==>
              st.appName == "" && !exists i :: 0 <= i < |cs| && CreatesAppExpr(env, cs[i].comparator, OtherParent)
    ensures st.appName == "" && r.1.appName == "" ==> r == (cs, st)
    decreases cs
  {
    if cs == [] then ([], st)
    else
      var (first, s1) := VisitComparison(env, cs[0], st);
      var (rest, s2) := VisitComparisons(env, cs[1..], s1);
      assert forall i :: 1 <= i < |cs| ==> cs[i] == cs[1..][i - 1];
      assert cs == [cs[0]] + cs[1..];
      ([first] + rest, s2)
  }

  function VisitStmt(env: FlaskEnv, s: Stmt, st: FixState): (r: (Stmt, FixState))
    requires SupportedStmt(env, s) && AppNameListed(env, st)
    ensures Evolves(st, r.1) && AppNameListed(env, r.1)
    ensures r.1.appName == "" <==> st.appName == "" && !CreatesAppStmt(env, s)
    ensures st.appName == "" && r.1.appName == "" ==> r == (s, st)
    decreases s
  {
    match s
    case ExprStmt(x) =>
      var (x', s1) := VisitExpr(env, x, OtherParent, st);
      (ExprStmt(x'), s1)
    case Assign(targets, value, pos) =>
      var (targets', s1) := VisitExprs(env, targets, st);
      var (value', s2) := VisitExpr(env, value, AssignedTo(targets[0]), s1);
      LeaveAssign(env, s, Assign(targets', value', pos), s2)
    case If(test, body, orelse, pos) =>
      var (test', s1) := VisitExpr(env, test, OtherParent, st);
      var (body', s2) := VisitBody(env, body, s1);
      var (orelse', s3) := VisitBody(env, orelse, s2);
      (If(test', body', orelse', pos), s3)
    case Compound(header, nested, pos) =>
      var (header', s1) := VisitExprs(env, header, st);
      var (nested', s2) := VisitBody(env, nested, s1);
      (Compound(header', nested', pos), s2)
    case Source(_) => (s, st)
    case Pass => (s, st)
  }

  function VisitBody(env: FlaskEnv, body: seq<Stmt>, st: FixState): (r: (seq<Stmt>, FixState))
    requires SupportedBody(env, body) && AppNameListed(env, st)
    ensures Evolves(st, r.1) && AppNameListed(env, r.1)
    ensures r.1.appName == "" <==> st.appName == "" && !CreatesAppBody(env, body)
    ensures st.appName == "" && r.1.appName == "" ==> r == (body, st)
    decreases body
  {
    if body == [] then ([], st)
    else
      var (first, s1) := VisitStmt(env, body[0], st);
      var (rest, s2) := VisitBody(env, body[1..], s1);
      assert forall i :: 1 <= i < |body| ==> body[i] == body[1..][i - 1];
      assert body == [body[0]] + body[1..];
      ([first] + rest, s2)
  }

  // ---------------------------------------------------------------------------
  // The module
  // ---------------------------------------------------------------------------

  /** The statement `app.config.update(<configString>)`. */
  function UpdateStatement(app: string, configString: string): Stmt
  {
    Source(app + ".config.update(" + configString + ")")
  }

  /** `insert_secure_configs`: the pending settings with a non-`None` first value
      are appended as one `app.config.update(...)` statement, reported at the
      original module's last line. */
  function InsertSecureConfigs(original: Module, updated: Module, app: string, configs: Configs,
                               description: string): (r: (Module, seq<Change>))
    ensures ConfigString(configs) == "" ==> r == (updated, [])
    ensures ConfigString(configs) != "" ==>
              && r.0.pos == updated.pos
              && |r.0.body| == |updated.body| + 1
              && r.0.body[..|updated.body|] == updated.body
              && r.0.body[|updated.body|] == UpdateStatement(app, ConfigString(configs))
              && r.1 == [Change(LineNumber(original.pos.endLine), description)]
  {
    if configs == [] then (updated, [])
    else
      var configString := ConfigString(configs);
      if configString == "" then (updated, [])
      else
        var finalLine := UpdateStatement(app, configString);
        (updated.(body := updated.body + [finalLine]), [Change(LineNumber(original.pos.endLine), description)])
  }

  /** `transform_module_impl`: the fixer's pass over the module, then the
      appended statement for what is still pending. `changes` is the file's
      change list before the pass. */
  function TransformModuleSpec(env: FlaskEnv, tree: Module, changes: seq<Change>): (r: (Module, seq<Change>))
    requires SupportedBody(env, tree.body)
    ensures changes <= r.1
    ensures !CreatesAppBody(env, tree.body) ==> r == (tree, changes)
  {
    var (body', st) := VisitBody(env, tree.body, InitialState(changes));
    if st.appName == "" then (tree, st.changes)
    else if st.pending != [] then
      var (m, appended) := InsertSecureConfigs(tree, Module(body', tree.pos), st.appName, st.pending, env.description);
      (m, st.changes + appended)
    else (Module(body', tree.pos), st.changes)
  }

  // ---------------------------------------------------------------------------
  // Two modules, step by step
  // ---------------------------------------------------------------------------

  /** Name resolution in which the bare name `Flask` is `flask.Flask`, in a
      module that assigns its app to `app`. */
  predicate ResolvesFlask(env: FlaskEnv)
  {
    env.resolve(Name("Flask")) == FlaskName && "app" in env.appNames
  }

  /** `app = Flask()` on line 2. */
  const CreateApp: Stmt := Assign([Name("app")], Call(Name("Flask"), [], Position(2, 2)), Position(2, 2))

  /** `app.config["SESSION_COOKIE_SECURE"] = False` on line 3. */
  const InsecureWrite: Stmt :=
    Assign([Subscript(AppConfig("app"), SimpleString("SESSION_COOKIE_SECURE"))], Name("False"), Position(3, 3))

  /** The same assignment with `True`. */
  const SecureWrite: Stmt :=
    Assign([Subscript(AppConfig("app"), SimpleString("SESSION_COOKIE_SECURE"))], Name("True"), Position(3, 3))

  /** One step of the body traversal: the first statement, then the rest. */
  lemma VisitBodyStep(env: FlaskEnv, body: seq<Stmt>, st: FixState, first: Stmt, s1: FixState,
                      rest: seq<Stmt>, s2: FixState)
    requires SupportedBody(env, body) && body != [] && AppNameListed(env, st)
    requires VisitStmt(env, body[0], st) == (first, s1)
    requires VisitBody(env, body[1..], s1) == (rest, s2)
    ensures VisitBody(env, body, st) == ([first] + rest, s2)
  {
  }

  /** Visiting `app = Flask()` names the app and changes nothing else. */
  lemma CreateAppStep(env: FlaskEnv, st: FixState)
    requires ResolvesFlask(env) && AppNameListed(env, st)
    ensures SupportedStmt(env, CreateApp)
    ensures VisitStmt(env, CreateApp, st) == (CreateApp, st.(appName := "app"))
  {
    var call := CreateApp.value;
    assert VisitExpr(env, Name("Flask"), OtherParent, st) == (Name("Flask"), st);
    assert VisitArgs(env, [], st) == ([], st);
    assert VisitExpr(env, call, AssignedTo(Name("app")), st) == (call, st.(appName := "app"));
    assert [Name("app")][1..] == [] && [Name("app")] + [] == [Name("app")];
    assert VisitExprs(env, [], st) == ([], st);
    assert VisitExpr(env, Name("app"), OtherParent, st) == (Name("app"), st);
    assert VisitExprs(env, [Name("app")], st) == ([Name("app")], st);
  }

  /** Visiting the insecure write once the app is known writes `True` instead,
      reports line 3 and drops the setting from the pending ones. */
  lemma InsecureWriteStep(env: FlaskEnv, st: FixState)
    requires st.appName == "app" && AppNameListed(env, st)
    ensures SupportedStmt(env, InsecureWrite)
    ensures VisitStmt(env, InsecureWrite, st)
         == (SecureWrite, FixState("app", RemoveConfig(st.pending, "SESSION_COOKIE_SECURE"),
                                   st.changes + [Change(LineNumber(3), env.description)]))
  {
    var target := InsecureWrite.targets[0];
    assert VisitExpr(env, Name("app"), OtherParent, st) == (Name("app"), st);
    assert VisitExpr(env, AppConfig("app"), OtherParent, st) == (AppConfig("app"), st);
    assert VisitExpr(env, SimpleString("SESSION_COOKIE_SECURE"), OtherParent, st)
        == (SimpleString("SESSION_COOKIE_SECURE"), st);
    assert VisitExpr(env, target, OtherParent, st) == (target, st);
    assert [target][1..] == [] && [target] + [] == [target];
    assert VisitExprs(env, [], st) == ([], st);
    assert VisitExprs(env, [target], st) == ([target], st);
    assert VisitExpr(env, Name("False"), AssignedTo(target), st) == (Name("False"), st);
    SecureFlagValues();
  }

  /** `False` is not an acceptable value of the secure flag, and the value
      written in its place reads back as `True`. */
  lemma SecureFlagValues()
    ensures IsSecureKey("SESSION_COOKIE_SECURE")
    ensures TrueValue(Name("False")) !in AcceptableValues("SESSION_COOKIE_SECURE")
    ensures SecureConfigExpr("SESSION_COOKIE_SECURE") == Name("True")
  {
    assert Strings.Lower("False") == "false";
    assert Strings.Lower("True") == "true";
    assert AcceptableValues("SESSION_COOKIE_SECURE") == [PyBool(true)];
  }

  /** When the pass over the body identifies an app, the result is the visited
      body followed by at most one statement: `app.config.update(...)` with
      exactly the pending settings that render, appended iff some does. The
      change list is the pass's, plus one change at the module's last line iff
      that statement is appended. */
  lemma TransformWithApp(env: FlaskEnv, tree: Module, changes: seq<Change>, body: seq<Stmt>, st: FixState)
    requires SupportedBody(env, tree.body)
    requires VisitBody(env, tree.body, InitialState(changes)) == (body, st)
    requires st.appName != ""
    ensures var config := ConfigString(st.pending);
            var appended := if config == "" then [] else [UpdateStatement(st.appName, config)];
            var reported := if config == "" then [] else [Change(LineNumber(tree.pos.endLine), env.description)];
            TransformModuleSpec(env, tree, changes) == (Module(body + appended, tree.pos), st.changes + reported)
  {
    if ConfigString(st.pending) == "" {
      assert body + [] == body && st.changes + [] == st.changes;
    } else {
      InsertAppends(tree, Module(body, tree.pos), st.appName, st.pending, env.description);
    }
  }

  /** With a non-empty rendering, the statement is appended after the visited body. */
  lemma InsertAppends(original: Module, updated: Module, app: string, configs: Configs, description: string)
    requires ConfigString(configs) != ""
    ensures InsertSecureConfigs(original, updated, app, configs, description)
         == (Module(updated.body + [UpdateStatement(app, ConfigString(configs))], updated.pos),
             [Change(LineNumber(original.pos.endLine), description)])
  {
  }

  lemma SecureTableRendered()
    ensures ConfigString(SecureSessionConfigs) != ""
  {
    ConfigStringEmptyIff(SecureSessionConfigs);
    assert Qualifies(SecureSessionConfigs[1]);
  }

  /** A module that only creates the app gets every pending setting with a
      non-`None` first value appended (by `FullTableString`, the secure flag and
      the `Lax` same-site policy), with one change at its last line. */
  lemma AppOnlyModule(env: FlaskEnv)
    requires ResolvesFlask(env)
    ensures SupportedBody(env, [CreateApp])
    ensures TransformModuleSpec(env, Module([CreateApp], Position(1, 2)), [])
         == (Module([CreateApp, UpdateStatement("app", ConfigString(SecureSessionConfigs))],
                    Position(1, 2)),
             [Change(LineNumber(2), env.description)])
  {
    var m := Module([CreateApp], Position(1, 2));
    AppOnlyBody(env);
    AppOnlyInsert(env.description);
    TransformWithApp(env, m, [], [CreateApp], FixState("app", SecureSessionConfigs, []));
    assert [] + [Change(LineNumber(2), env.description)] == [Change(LineNumber(2), env.description)];
  }

  lemma AppOnlyBody(env: FlaskEnv)
    requires ResolvesFlask(env)
    ensures SupportedBody(env, [CreateApp])
    ensures VisitBody(env, [CreateApp], InitialState([])) == ([CreateApp], FixState("app", SecureSessionConfigs, []))
  {
    var st0 := InitialState([]);
    var st1 := FixState("app", SecureSessionConfigs, []);
    CreateAppStep(env, st0);
    assert [CreateApp][1..] == [] && [CreateApp] + [] == [CreateApp];
    assert VisitBody(env, [], st1) == ([], st1);
    VisitBodyStep(env, [CreateApp], st0, CreateApp, st1, [], st1);
  }

  lemma AppOnlyInsert(description: string)
    ensures InsertSecureConfigs(Module([CreateApp], Position(1, 2)), Module([CreateApp], Position(1, 2)), "app",
                                SecureSessionConfigs, description)
         == (Module([CreateApp, UpdateStatement("app", ConfigString(SecureSessionConfigs))], Position(1, 2)),
             [Change(LineNumber(2), description)])
  {
    var m := Module([CreateApp], Position(1, 2));
    var last := UpdateStatement("app", ConfigString(SecureSessionConfigs));
    SecureTableRendered();
    InsertAppends(m, m, "app", SecureSessionConfigs, description);
    assert [CreateApp] + [last] == [CreateApp, last];
  }

  /** `cfg.config.update(d)` on line 1, where `cfg` is not a Flask app. */
  const ForeignUpdate: Stmt :=
    ExprStmt(Call(Attribute(AppConfig("cfg"), "update"), [Arg(None, Name("d"))], Position(1, 1)))

  /** In a module that never creates an app, an `update` call on some other
      object's `config`, even with a positional argument, is walked and left
      as it is, with no change reported. */
  lemma ForeignUpdateUntouched(env: FlaskEnv, changes: seq<Change>)
    requires "cfg" !in env.appNames
    ensures SupportedBody(env, [ForeignUpdate])
    ensures TransformModuleSpec(env, Module([ForeignUpdate], Position(1, 1)), changes)
         == (Module([ForeignUpdate], Position(1, 1)), changes)
  {
    var call := ForeignUpdate.expr;
    assert !CreatesAppExpr(env, call.args[0].value, OtherParent);
    assert !CreatesAppStmt(env, ForeignUpdate);
  }

  /** Only the same-site policy is left once the secure flag is written. */
  lemma SameSiteOnlyPending()
    ensures ConfigString(RemoveConfig(SecureSessionConfigs, "SESSION_COOKIE_SECURE")) == "SESSION_COOKIE_SAMESITE='Lax'"
  {
    var t := SecureSessionConfigs;
    var rest := [t[0], t[2]];
    SecureFlagRemoved();
    assert !Qualifies(t[0]) && rest[1..] == [t[2]] && [t[2]][1..] == [];
    assert ConfigItems(rest) == [ConfigItem(t[2])];
    SameSiteItem();
  }

  /** Removing the secure flag leaves the other two settings, in order. */
  lemma SecureFlagRemoved()
    ensures RemoveConfig(SecureSessionConfigs, "SESSION_COOKIE_SECURE") == [SecureSessionConfigs[0], SecureSessionConfigs[2]]
  {
    var t := SecureSessionConfigs;
    var keys := {"SESSION_COOKIE_SECURE"};
    assert t[1..][1..][1..] == [];
    assert Without(t[1..][1..], keys) == [t[2]];
    assert Without(t[1..], keys) == [t[2]];
  }

  /** The same-site setting renders with its first-ranked policy. */
  lemma SameSiteItem()
    ensures Qualifies(SecureSessionConfigs[2])
    ensures ConfigItem(SecureSessionConfigs[2]) == "SESSION_COOKIE_SAMESITE='Lax'"
  {
  }

  /** A two-statement body is visited statement by statement, the state of the
      first visit feeding the second. */
  lemma TwoStatementBody(env: FlaskEnv, a: Stmt, b: Stmt, st0: FixState, a1: Stmt, st1: FixState, b1: Stmt,
                         st2: FixState)
    requires SupportedStmt(env, a) && SupportedStmt(env, b) && AppNameListed(env, st0)
    requires VisitStmt(env, a, st0) == (a1, st1) && VisitStmt(env, b, st1) == (b1, st2)
    ensures SupportedBody(env, [a, b])
    ensures VisitBody(env, [a, b], st0) == ([a1, b1], st2)
  {
    var body := [a, b];
    assert body[1..] == [b] && [b][1..] == [];
    assert VisitBody(env, [], st2) == ([], st2);
    VisitBodyStep(env, [b], st1, b1, st2, [], st2);
    assert [b1] + [] == [b1];
    VisitBodyStep(env, body, st0, a1, st1, [b1], st2);
    assert [a1] + [b1] == [a1, b1];
  }

  lemma InsecureBody(env: FlaskEnv, pending: Configs)
    requires ResolvesFlask(env)
    ensures SupportedBody(env, [CreateApp, InsecureWrite])
    ensures VisitBody(env, [CreateApp, InsecureWrite], FixState("", pending, []))
         == ([CreateApp, SecureWrite],
             FixState("app", RemoveConfig(pending, "SESSION_COOKIE_SECURE"), [Change(LineNumber(3), env.description)]))
  {
    var st0 := FixState("", pending, []);
    var st1 := st0.(appName := "app");
    var ch := Change(LineNumber(3), env.description);
    CreateAppStep(env, st0);
    InsecureWriteStep(env, st1);
    assert st1.changes + [ch] == [ch];
    TwoStatementBody(env, CreateApp, InsecureWrite, st0, CreateApp, st1, SecureWrite,
                     FixState("app", RemoveConfig(pending, "SESSION_COOKIE_SECURE"), [ch]));
  }

  /** A factory `def create_app():` whose body creates the app and writes the
      insecure setting: the walk enters the function and fixes the write there. */
  lemma FactoryFixed(env: FlaskEnv, pending: Configs, pos: Position)
    requires ResolvesFlask(env)
    ensures SupportedStmt(env, Compound([], [CreateApp, InsecureWrite], pos))
    ensures VisitStmt(env, Compound([], [CreateApp, InsecureWrite], pos), FixState("", pending, []))
         == (Compound([], [CreateApp, SecureWrite], pos),
             FixState("app", RemoveConfig(pending, "SESSION_COOKIE_SECURE"), [Change(LineNumber(3), env.description)]))
  {
    var st0 := FixState("", pending, []);
    InsecureBody(env, pending);
    assert VisitExprs(env, [], st0) == ([], st0);
  }

  /** An insecure `app.config["SESSION_COOKIE_SECURE"] = False` after the app is
      created becomes `= True` and is reported at its line; the appended call
      then carries only what is still pending, which by `SameSiteOnlyPending` is
      the `Lax` same-site policy. */
  lemma InsecureAssignmentFixed(env: FlaskEnv)
    requires ResolvesFlask(env)
    ensures SupportedBody(env, [CreateApp, InsecureWrite])
    ensures TransformModuleSpec(env, Module([CreateApp, InsecureWrite], Position(1, 3)), [])
         == (Module([CreateApp, SecureWrite,
                     UpdateStatement("app", ConfigString(RemoveConfig(SecureSessionConfigs, "SESSION_COOKIE_SECURE")))],
                    Position(1, 3)),
             [Change(LineNumber(3), env.description), Change(LineNumber(3), env.description)])
  {
    var m := Module([CreateApp, InsecureWrite], Position(1, 3));
    var pending := RemoveConfig(SecureSessionConfigs, "SESSION_COOKIE_SECURE");
    var ch := Change(LineNumber(3), env.description);
    InsecureBody(env, SecureSessionConfigs);
    SameSiteRendered();
    InsecureInsert(pending, env.description);
    TransformWithApp(env, m, [], [CreateApp, SecureWrite], FixState("app", pending, [ch]));
    assert [ch] + [ch] == [ch, ch];
  }

  lemma SameSiteRendered()
    ensures ConfigString(RemoveConfig(SecureSessionConfigs, "SESSION_COOKIE_SECURE")) != ""
  {
    SameSiteOnlyPending();
  }

  lemma InsecureInsert(pending: Configs, description: string)
    requires ConfigString(pending) != ""
    ensures InsertSecureConfigs(Module([CreateApp, InsecureWrite], Position(1, 3)),
                                Module([CreateApp, SecureWrite], Position(1, 3)), "app", pending, description)
         == (Module([CreateApp, SecureWrite, UpdateStatement("app", ConfigString(pending))], Position(1, 3)),
             [Change(LineNumber(3), description)])
  {
    var last := UpdateStatement("app", ConfigString(pending));
    InsertAppends(Module([CreateApp, InsecureWrite], Position(1, 3)), Module([CreateApp, SecureWrite], Position(1, 3)),
                  "app", pending, description);
    assert [CreateApp, SecureWrite] + [last] == [CreateApp, SecureWrite, last];
  }
}
