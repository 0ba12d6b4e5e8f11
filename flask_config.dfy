/** The classes of the `secure-flask-session-configuration` rule
    (src/core_codemods/secure_flask_session_config.py) with their mutable fields:
    the fixer keeps the app name and the pending settings, and both it and the
    rule append to the file context's change list. Every method is proved to
    compute what the functions of module FlaskFix say. */
module FlaskConfig {
  import opened Syntax
  import opened FlaskValues
  import opened FlaskFix

  /** `FileContext`, reduced to the change list the rules of one file append to. */
  class FileContext {
    var codemodChanges: seq<Change>

    constructor (changes: seq<Change>)
      ensures codemodChanges == changes
    {
      codemodChanges := changes;
    }
  }

  /** `FixFlaskConfig`: the visitor that finds the app and secures its settings. */
  class FixFlaskConfig {
    const env: FlaskEnv
    const fileContext: FileContext
    var flaskAppName: string
    var configsToWrite: Configs

    /** The fields the hooks read and write, as one value. */
    function State(): FixState
      reads this, fileContext
    {
      FixState(flaskAppName, configsToWrite, fileContext.codemodChanges)
    }

    /** `__init__`: no app yet, a copy of the whole table pending. */
    constructor (env: FlaskEnv, fileContext: FileContext)
      ensures this.env == env && this.fileContext == fileContext
      ensures State() == InitialState(fileContext.codemodChanges)
    {
      this.env := env;
      this.fileContext := fileContext;
      flaskAppName := "";
      configsToWrite := SecureSessionConfigs;
    }

    /** `_store_flask_app`. */
    method StoreFlaskApp(parent: Parent)
      requires parent.AssignedTo? ==> parent.target.Name?
      modifies this
      ensures State() == FlaskFix.StoreFlaskApp(parent, old(State()))
    {
      if parent.AssignedTo? {
        flaskAppName := parent.target.id;
      }
    }

    /** `_remove_config`: `del`, with a missing key ignored. */
    method RemoveConfig(key: string)
      modifies this
      ensures State() == old(State()).(pending := FlaskValues.RemoveConfig(old(configsToWrite), key))
    {
      configsToWrite := FlaskValues.RemoveConfig(configsToWrite, key);
    }

    /** `report_change`: one change at the node's first line. */
    method ReportChange(pos: Position)
      modifies fileContext
      ensures State() == old(State()).(changes := old(fileContext.codemodChanges)
                                                  + [Change(LineNumber(pos.startLine), env.description)])
    {
      fileContext.codemodChanges := fileContext.codemodChanges + [Change(LineNumber(pos.startLine), env.description)];
    }

    /** `call_node_with_secure_configs`: the loop that builds `new_args`. */
    method CallNodeWithSecureConfigs(original: Expr, updated: Expr) returns (r: Expr)
      requires original.Call? && updated.Call? && AllKeyword(updated.args)
      modifies this, fileContext
      ensures (r, State()) == CallWithSecureConfigs(env, original, updated, old(State()))
    {
      var args := updated.args;
      var newArgs: seq<Arg> := [];
      var i := 0;
      WithoutNothing(configsToWrite);
      assert WrittenKeys(args[..0]) == {};
      while i < |args|
        invariant 0 <= i <= |args|
        invariant AllKeyword(args[..i])
        invariant newArgs == RewriteArgs(args[..i])
        invariant State() == old(State()).(pending := Without(old(configsToWrite), WrittenKeys(args[..i])))
      {
        var arg := args[i];
        var key := arg.keyword.value;
        if IsSecureKey(key) {
          RemoveConfig(key);
          if TrueValue(arg.value) !in AcceptableValues(key) {
            arg := Arg(arg.keyword, SecureConfigExpr(key));
          }
        }
        PendingStep(old(configsToWrite), args, i);
        RewriteArgsSnoc(args, i);
        newArgs := newArgs + [arg];
        i := i + 1;
      }
      assert args[..i] == args;
      if args != newArgs {
        ReportChange(original.pos);
      }
      r := Call(updated.func, newArgs, updated.pos);
    }

    /** `leave_Call`. */
    method LeaveCall(original: Expr, updated: Expr, parent: Parent) returns (r: Expr)
      requires original.Call? && updated.Call?
      requires AppNameListed(env, State()) && ParentSupported(env, original, parent)
      requires AppUpdateCall(env, original.func) ==> AllKeyword(updated.args)
      modifies this, fileContext
      ensures (r, State()) == FlaskFix.LeaveCall(env, original, updated, parent, old(State()))
    {
      if env.resolve(original.func) == FlaskName {
        StoreFlaskApp(parent);
      }
      if flaskAppName != "" && IsConfigUpdateCall(original.func, flaskAppName) {
        r := CallNodeWithSecureConfigs(original, updated);
      } else {
        r := updated;
      }
    }

    /** `assign_node_with_secure_config`. */
    method AssignNodeWithSecureConfig(original: Stmt, updated: Stmt) returns (r: Stmt)
      requires original.Assign? && updated.Assign? && |updated.targets| >= 1 && updated.targets[0].Subscript?
      modifies this, fileContext
      ensures (r, State()) == AssignWithSecureConfig(env, original, updated, old(State()))
    {
      var key := TrueValue(updated.targets[0].index);
      r := updated;
      if key.PyStr? && IsSecureKey(key.s) {
        RemoveConfig(key.s);
        if TrueValue(updated.value) !in AcceptableValues(key.s) {
          var safe := SecureConfigExpr(key.s);
          ReportChange(original.pos);
          r := updated.(value := safe);
        }
      }
    }

    /** `leave_Assign`. */
    method LeaveAssign(original: Stmt, updated: Stmt) returns (r: Stmt)
      requires original.Assign? && updated.Assign?
      requires |original.targets| >= 1 && |updated.targets| >= 1
      requires original.targets[0].Subscript? ==> updated.targets[0].Subscript?
      modifies this, fileContext
      ensures (r, State()) == FlaskFix.LeaveAssign(env, original, updated, old(State()))
    {
      if flaskAppName != "" && IsConfigSubscript(original.targets[0], flaskAppName) {
        r := AssignNodeWithSecureConfig(original, updated);
      } else {
        r := updated;
      }
    }

    // The post-order walk of `transform_module`: children left to right, then
    // the node's own `leave_` hook. These methods stand for libcst's traversal
    // driving the hooks above; each is proved equal to its `FlaskFix` function.

    method VisitExpr(e: Expr, parent: Parent) returns (r: Expr)
      requires SupportedExpr(env, e) && ParentSupported(env, e, parent) && AppNameListed(env, State())
      modifies this, fileContext
      ensures (r, State()) == FlaskFix.VisitExpr(env, e, parent, old(State()))
      decreases e
    {
      match e
      case Name(_) => r := e;
      case SimpleString(_) => r := e;
      case Integer(_) => r := e;
      case Attribute(v, attr) =>
        var v' := VisitExpr(v, OtherParent);
        r := Attribute(v', attr);
      case Call(func, args, pos) =>
        var func' := VisitExpr(func, OtherParent);
        var args' := VisitArgs(args);
        r := LeaveCall(e, Call(func', args', pos), parent);
      case Subscript(v, index) =>
        var v' := VisitExpr(v, OtherParent);
        var index' := VisitExpr(index, OtherParent);
        r := Subscript(v', index');
      case List(elements) =>
        var elements' := VisitExprs(elements);
        r := List(elements');
      case Tuple(elements) =>
        var elements' := VisitExprs(elements);
        r := Tuple(elements');
      case Dict(elements) =>
        var elements' := VisitExprs(elements);
        r := Dict(elements');
      case Comparison(left, comparisons) =>
        var left' := VisitExpr(left, OtherParent);
        var comparisons' := VisitComparisons(comparisons);
        r := Comparison(left', comparisons');
      case UnaryOperation(op, x) =>
        var x' := VisitExpr(x, OtherParent);
        r := UnaryOperation(op, x');
    }

    method VisitExprs(es: seq<Expr>) returns (r: seq<Expr>)
      requires (forall i :: 0 <= i < |es| ==> SupportedExpr(env, es[i])) && AppNameListed(env, State())
      modifies this, fileContext
      ensures (r, State()) == FlaskFix.VisitExprs(env, es, old(State()))
      decreases es
    {
      if es == [] {
        r := [];
      } else {
        var first := VisitExpr(es[0], OtherParent);
        assert forall i :: 1 <= i < |es| ==> es[i] == es[1..][i - 1];
        var rest := VisitExprs(es[1..]);
        r := [first] + rest;
      }
    }

    method VisitArg(a: Arg) returns (r: Arg)
      requires SupportedExpr(env, a.value) && AppNameListed(env, State())
      modifies this, fileContext
      ensures (r, State()) == FlaskFix.VisitArg(env, a, old(State()))
      decreases a
    {
      var v' := VisitExpr(a.value, OtherParent);
      r := Arg(a.keyword, v');
    }

    method VisitArgs(args: seq<Arg>) returns (r: seq<Arg>)
      requires (forall i :: 0 <= i < |args| ==> SupportedExpr(env, args[i].value)) && AppNameListed(env, State())
      modifies this, fileContext
      ensures (r, State()) == FlaskFix.VisitArgs(env, args, old(State()))
      decreases args
    {
      if args == [] {
        r := [];
      } else {
        var first := VisitArg(args[0]);
        assert forall i :: 1 <= i < |args| ==> args[i] == args[1..][i - 1];
        var rest := VisitArgs(args[1..]);
        r := [first] + rest;
      }
    }

    method VisitComparison(c: ComparisonTarget) returns (r: ComparisonTarget)
      requires SupportedExpr(env, c.comparator) && AppNameListed(env, State())
      modifies this, fileContext
      ensures (r, State()) == FlaskFix.VisitComparison(env, c, old(State()))
      decreases c
    {
      var x' := VisitExpr(c.comparator, OtherParent);
      r := ComparisonTarget(c.operator, x');
    }

    method VisitComparisons(cs: seq<ComparisonTarget>) returns (r: seq<ComparisonTarget>)
      requires (forall i :: 0 <= i < |cs| ==> SupportedExpr(env, cs[i].comparator)) && AppNameListed(env, State())
      modifies this, fileContext
      ensures (r, State()) == FlaskFix.VisitComparisons(env, cs, old(State()))
      decreases cs
    {
      if cs == [] {
        r := [];
      } else {
        var first := VisitComparison(cs[0]);
        assert forall i :: 1 <= i < |cs| ==> cs[i] == cs[1..][i - 1];
        var rest := VisitComparisons(cs[1..]);
        r := [first] + rest;
      }
    }

    method VisitStmt(s: Stmt) returns (r: Stmt)
      requires SupportedStmt(env, s) && AppNameListed(env, State())
      modifies this, fileContext
      ensures (r, State()) == FlaskFix.VisitStmt(env, s, old(State()))
      decreases s
    {
      match s
      case ExprStmt(x) =>
        var x' := VisitExpr(x, OtherParent);
        r := ExprStmt(x');
      case Assign(targets, value, pos) =>
        var targets' := VisitExprs(targets);
        var value' := VisitExpr(value, AssignedTo(targets[0]));
        r := LeaveAssign(s, Assign(targets', value', pos));
      case If(test, body, orelse, pos) =>
        var test' := VisitExpr(test, OtherParent);
        var body' := VisitBody(body);
        var orelse' := VisitBody(orelse);
        r := If(test', body', orelse', pos);
      case Compound(header, nested, pos) =>
        var header' := VisitExprs(header);
        var nested' := VisitBody(nested);
        r := Compound(header', nested', pos);
      case Source(_) => r := s;
      case Pass => r := s;
    }

    method VisitBody(body: seq<Stmt>) returns (r: seq<Stmt>)
      requires SupportedBody(env, body) && AppNameListed(env, State())
      modifies this, fileContext
      ensures (r, State()) == FlaskFix.VisitBody(env, body, old(State()))
      decreases body
    {
      if body == [] {
        r := [];
      } else {
        var first := VisitStmt(body[0]);
        assert forall i :: 1 <= i < |body| ==> body[i] == body[1..][i - 1];
        var rest := VisitBody(body[1..]);
        r := [first] + rest;
      }
    }
  }

  /** The keys written by one more argument are those written before, plus its
      own key when that is a secure setting. */
  lemma WrittenKeysSnoc(args: seq<Arg>, i: int)
    requires 0 <= i < |args| && AllKeyword(args)
    ensures WrittenKeys(args[..i + 1])
         == WrittenKeys(args[..i])
            + (if IsSecureKey(args[i].keyword.value) then {args[i].keyword.value} else {})
  {
    var a := args[..i + 1];
    assert forall j :: 0 <= j < i ==> a[j] == args[..i][j];
  }

  /** One turn of the argument loop keeps the pending settings equal to the
      table without the keys written so far. */
  lemma PendingStep(d: Configs, args: seq<Arg>, i: int)
    requires 0 <= i < |args| && AllKeyword(args)
    ensures var key := args[i].keyword.value;
            var before := Without(d, WrittenKeys(args[..i]));
            (if IsSecureKey(key) then FlaskValues.RemoveConfig(before, key) else before)
              == Without(d, WrittenKeys(args[..i + 1]))
  {
    var key := args[i].keyword.value;
    WrittenKeysSnoc(args, i);
    if IsSecureKey(key) {
      WithoutWithout(d, WrittenKeys(args[..i]), {key});
    } else {
      assert WrittenKeys(args[..i + 1]) == WrittenKeys(args[..i]);
    }
  }

  /** The rewritten prefix grows by the rewritten argument. */
  lemma RewriteArgsSnoc(args: seq<Arg>, i: int)
    requires 0 <= i < |args| && AllKeyword(args)
    ensures AllKeyword(args[..i]) && AllKeyword(args[..i + 1])
    ensures RewriteArgs(args[..i + 1]) == RewriteArgs(args[..i]) + [RewriteArg(args[i])]
  {
  }

  /** `SecureFlaskSessionConfig`: runs the fixer over the module, then appends
      the settings still pending. */
  class SecureFlaskSessionConfig {
    const env: FlaskEnv
    const fileContext: FileContext

    constructor (env: FlaskEnv, fileContext: FileContext)
      ensures this.env == env && this.fileContext == fileContext
    {
      this.env := env;
      this.fileContext := fileContext;
    }

    /** `transform_module_impl`. */
    method TransformModuleImpl(tree: Module) returns (r: Module)
      requires SupportedBody(env, tree.body)
      modifies fileContext
      ensures (r, fileContext.codemodChanges) == TransformModuleSpec(env, tree, old(fileContext.codemodChanges))
    {
      var flaskCodemod := new FixFlaskConfig(env, fileContext);
      var resultBody := flaskCodemod.VisitBody(tree.body);
      var resultTree := Module(resultBody, tree.pos);
      if flaskCodemod.flaskAppName == "" {
        r := tree;
      } else if flaskCodemod.configsToWrite != [] {
        r := InsertSecureConfigs(tree, resultTree, flaskCodemod.flaskAppName, flaskCodemod.configsToWrite);
      } else {
        r := resultTree;
      }
    }

    /** `insert_secure_configs`. */
    method InsertSecureConfigs(original: Module, updated: Module, appName: string, configs: Configs)
      returns (r: Module)
      modifies fileContext
      ensures var ins := FlaskFix.InsertSecureConfigs(original, updated, appName, configs, env.description);
              r == ins.0 && fileContext.codemodChanges == old(fileContext.codemodChanges) + ins.1
    {
      if configs == [] {
        return updated;
      }
      var configString := ConfigString(configs);
      if configString == "" {
        return updated;
      }
      ReportChangeEndOfModule(original);
      var finalLine := UpdateStatement(appName, configString);
      r := updated.(body := updated.body + [finalLine]);
    }

    /** `report_change_endof_module`: one change at the module's last line. */
    method ReportChangeEndOfModule(original: Module)
      modifies fileContext
      ensures fileContext.codemodChanges
           == old(fileContext.codemodChanges) + [Change(LineNumber(original.pos.endLine), env.description)]
    {
      fileContext.codemodChanges := fileContext.codemodChanges
                                    + [Change(LineNumber(original.pos.endLine), env.description)];
    }
  }
}
