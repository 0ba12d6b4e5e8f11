/** The `process-sandbox` rule (codemodder/codemods/process_creation_sandbox.py):
    a process-spawning call such as `subprocess.run(a, …)` that the scanner
    flagged and the line filter admits becomes `safe_command.run(subprocess.run, a, …)`,
    with one change record and one import request per rewrite. */
module ProcessSandbox {
  import opened Syntax
  import opened LineScope
  import Strings

  const ReplacementImport: Identifier := "safe_command"
  const ChangeDescription := "Switch use of subprocess for security.safe_command"

  /** An import registered with the import-adding visitor: `from module import name`. */
  datatype ImportRequest = ImportRequest(moduleName: string, objectName: string)

  /** The rebuilt call: the callee's base becomes `safe_command`, its attribute
      name stays, and the original callee goes in front of the arguments. */
  function SandboxedCall(call: Expr): (r: Expr)
    requires call.Call? && call.func.Attribute?
    ensures r.Call? && r.func.Attribute? && r.pos == call.pos
    ensures r.func.value == Name(ReplacementImport) && r.func.attr == call.func.attr
    ensures |r.args| == |call.args| + 1
    ensures r.args[0] == Arg(None, call.func) && r.args[1..] == call.args
  {
    call.(func := Attribute(Name(ReplacementImport), call.func.attr), args := [Arg(None, call.func)] + call.args)
  }

  /** The call a sandboxed call wraps: its first argument called with the rest. */
  function WrappedCall(r: Expr): Expr
    requires r.Call? && |r.args| >= 1
  {
    Call(r.args[0].value, r.args[1..], r.pos)
  }

  /** Sandboxing loses nothing: the wrapped call is the original one. */
  lemma WrappedCallInverse(call: Expr)
    requires call.Call? && call.func.Attribute?
    ensures WrappedCall(SandboxedCall(call)) == call
  {
  }

  /** The rule's per-file state: the change list and the imports it asked for. */
  class ProcessSandbox {
    const filter: LineFilter
    const resultFilter: Position -> bool
    var changesInFile: seq<Change>
    var neededImports: seq<ImportRequest>

    constructor (filter: LineFilter, resultFilter: Position -> bool)
      ensures this.filter == filter && this.resultFilter == resultFilter
      ensures changesInFile == [] && neededImports == []
    {
      this.filter := filter;
      this.resultFilter := resultFilter;
      changesInFile := [];
      neededImports := [];
    }

    /** Both filters accept the node at `pos`. */
    predicate Selected(pos: Position)
    {
      resultFilter(pos) && InScope(pos, filter)
    }

    /** `leave_Call`. */
    method LeaveCall(original: Expr, updated: Expr) returns (r: Expr)
      requires original.Call? && updated.Call?
      requires Selected(original.pos) ==> updated.func.Attribute?
      modifies this
      ensures Selected(original.pos) ==>
        && r == SandboxedCall(updated)
        && changesInFile == old(changesInFile)
             + [Change(LineText(Strings.IntString(original.pos.startLine)), ChangeDescription)]
        && neededImports == old(neededImports) + [ImportRequest("security", "safe_command")]
      ensures !Selected(original.pos) ==>
        r == updated && changesInFile == old(changesInFile) && neededImports == old(neededImports)
    {
      var pos := original.pos;
      if resultFilter(pos) && InScope(pos, filter) {
        var lineNumber := pos.startLine;
        changesInFile := changesInFile + [Change(LineText(Strings.IntString(lineNumber)), ChangeDescription)];
        neededImports := neededImports + [ImportRequest("security", "safe_command")];
        r := updated.(func := Attribute(Name(ReplacementImport), updated.func.attr),
                      args := [Arg(None, updated.func)] + updated.args);
      } else {
        r := updated;
      }
    }
  }

  /** `subprocess.run(cmd)` on a selected line becomes
      `safe_command.run(subprocess.run, cmd)`. */
  lemma Example()
    ensures var run := Attribute(Name("subprocess"), "run");
            var p := Position(3, 3);
            SandboxedCall(Call(run, [Arg(None, Name("cmd"))], p))
              == Call(Attribute(Name("safe_command"), "run"), [Arg(None, run), Arg(None, Name("cmd"))], p)
  {
  }
}
