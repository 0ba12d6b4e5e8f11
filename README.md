# codemodder-python rules, modelled in Dafny

This project models the core of codemodder-python, a tool that rewrites Python
source files with "codemods" (rules) and reports what it changed in a CodeTF
report. The modelled parts are:

- **Line scoping** (`LineScope`, line_filter.dfy). order-imports, fix-empty-sequence-comparison and
  process-sandbox apply it to a node before rewriting; the Flask rule does not. A non-empty list
  of excluded lines decides alone. Otherwise a non-empty list of included lines decides. A node
  matches a line when it starts and ends on it.
- **order-imports** (`OrderImports`). Top-level import blocks are kept when their first statement is in
  scope. The tree is reordered only when some block survives.
- **fix-empty-sequence-comparison** (`EmptySequenceComparison`). `if x == []:` becomes `if not x:`, and
  `if x != []:` becomes `if x:`.
- **process-sandbox** (`ProcessSandbox`). A flagged `subprocess.run(a)` becomes
  `safe_command.run(subprocess.run, a)`. Each rewrite records one change and one import.
- **secure-flask-session-configuration** (`FlaskValues`, `FlaskFix`, `FlaskConfig`):
  - A visitor finds the Flask app. It rewrites insecure `app.config.update(...)` arguments and
    `app.config[key] = value` assignments to the secure value of `SECURE_SESSION_CONFIGS`.
  - The session settings that were never written are appended as one `app.config.update(...)`
    statement.
  - `FlaskFix` states each hook and the post-order walk as functions on the fixer's state.
  - `FlaskConfig` holds the classes with their mutable fields (`flask_app_name`,
    `configs_to_write`, the file context's change list). Each of their methods is proved to compute
    what the `FlaskFix` functions say.
- **CodeTF report** (`CodeTFReporter`): the report skeleton, the run fields `generate` fills in, the
  reconstructed command line and the status of `write_report`.
- **Semgrep driver** (`Semgrep`): the scanner command list, and the grouping of SARIF results by rule id.
- **Documentation generator** (`GenerateDocs`): the per-rule metadata table, the rendered page and the
  page's file name.

`Syntax` holds the small Python syntax tree the rules work on. `Strings` holds the Python string
built-ins they use.

## Model

| member | source | states |
|---|---|---|
| LineScope.AnyMatchIff | codemodder/codemods/order_imports.py:59-62 | the `any(match_line ...)` scan is true exactly when some listed line matches the node |
| LineScope.ExcludeTakesPrecedence | codemodder/codemods/order_imports.py:58-60 | with excluded lines, a node is in scope iff no excluded line matches it, whatever the include list is |
| LineScope.IncludeSelects | codemodder/codemods/order_imports.py:61-62 | with no excludes and some includes, a node is in scope iff some included line matches it |
| LineScope.NoFilterAdmitsAll | codemodder/codemods/order_imports.py:63 | with both lists empty every node is in scope |
| LineScope.MultiLineNode | codemodder/codemods/order_imports.py:70-71 | a node spanning several lines matches no line: excludes never drop it, includes never select it |
| LineScope.ExcludeWinsOnSameLine | codemodder/codemods/order_imports.py:58-60 | a line both included and excluded is out of scope |
| OrderImports.FilterBlocks | codemodder/codemods/order_imports.py:38-43 | the loop collects exactly `KeptBlocks`: the blocks whose anchor is in scope, in order |
| OrderImports.KeptBlocksMembers | codemodder/codemods/order_imports.py:39-43 | a block survives iff it was gathered and its first statement is in scope |
| OrderImports.KeptBlocksAppend | codemodder/codemods/order_imports.py:38-43 | selection distributes over concatenation, so surviving blocks keep their relative order |
| OrderImports.TransformModuleImpl | codemodder/codemods/order_imports.py:33-52 | the tree comes back unchanged when no block survives; otherwise it is the reordering of the surviving blocks |
| OrderImports.NothingKeptIff | codemodder/codemods/order_imports.py:45-52 | no block survives exactly when no gathered block's anchor is in scope |
| EmptySequenceComparison.LeaveIf | src/core_codemods/fix_empty_sequence_comparison.py:16-46 | out of scope or not a single `==`/`!=` test: the original back and no change; otherwise one change at the `if` line iff an operand is an empty list, dict or tuple, and the result differs from the original exactly then |
| EmptySequenceComparison.EqualBecomesNot | src/core_codemods/fix_empty_sequence_comparison.py:40-45 | `x == []` and `[] == x` become `not x` |
| EmptySequenceComparison.NotEqualBecomesOperand | src/core_codemods/fix_empty_sequence_comparison.py:36-39 | `x != []` and `[] != x` become `x` |
| EmptySequenceComparison.RewriteSettles | src/core_codemods/fix_empty_sequence_comparison.py:16-46 | a second application changes nothing, unless `!=` kept an operand that is itself such a comparison |
| EmptySequenceComparison.NestedComparisonRewritesTwice | src/core_codemods/fix_empty_sequence_comparison.py:24-45 | `(x == []) != []` needs two applications: first `x == []`, then `not x` |
| EmptySequenceComparison.Examples | src/core_codemods/fix_empty_sequence_comparison.py:16-52 | `x == []` becomes `not x`, `[] != x` becomes `x`, `x == [1]` is kept |
| ProcessSandbox.SandboxedCall | codemodder/codemods/process_creation_sandbox.py:50-53 | the callee's base becomes `safe_command`, the attribute name stays, the old callee becomes the first argument before the original arguments |
| ProcessSandbox.WrappedCallInverse | codemodder/codemods/process_creation_sandbox.py:50-53 | calling the first argument with the remaining ones gives the original call back |
| ProcessSandbox.ProcessSandbox.constructor | codemodder/codemods/process_creation_sandbox.py:28-36 | the rule starts with no changes and no import requests; `CHANGES_IN_FILE` is set up by a base class that is not part of this model, and its empty start is assumed |
| ProcessSandbox.ProcessSandbox.LeaveCall | codemodder/codemods/process_creation_sandbox.py:38-54 | a call both filters accept is sandboxed, with one change at its line (as text) and one `security.safe_command` import request appended; any other call and the state are untouched |
| ProcessSandbox.Example | codemodder/codemods/process_creation_sandbox.py:50-53 | `subprocess.run(cmd)` becomes `safe_command.run(subprocess.run, cmd)` |
| FlaskValues.LookupFindsKeys | src/core_codemods/secure_flask_session_config.py:137 | a key is found in the settings dictionary iff it is one of its keys |
| FlaskValues.Without | src/core_codemods/secure_flask_session_config.py:109-113 | an entry remains iff it was there and its key is not removed |
| FlaskValues.WithoutKeySet | src/core_codemods/secure_flask_session_config.py:109-113 | the remaining keys are the old keys minus the removed ones |
| FlaskValues.RemoveAbsentConfig | src/core_codemods/secure_flask_session_config.py:110-113 | deleting a missing key (the ignored `KeyError`) leaves the dictionary as it was |
| FlaskValues.WithoutWithout | src/core_codemods/secure_flask_session_config.py:136-138 | successive deletions compose into one deletion of all their keys |
| FlaskValues.TrueValue | src/core_codemods/secure_flask_session_config.py:192-210 | a string gives its text; `true`/`false` in any case give booleans; other names give their text; anything else gives `""` |
| FlaskValues.TrueValueReadsBack | src/core_codemods/secure_flask_session_config.py:115-117 | reading back the expression built for a boolean or string value gives that value |
| FlaskValues.FirstTruthyOrSecond | src/core_codemods/secure_flask_session_config.py:116 | the first acceptable value when truthy, else the second |
| FlaskValues.SecureTableHasReplacements | src/core_codemods/secure_flask_session_config.py:88-94 | every entry of `SECURE_SESSION_CONFIGS` has a replacement that is not `None` |
| FlaskValues.SecureReplacementAccepted | src/core_codemods/secure_flask_session_config.py:115-117 | the replacement value is itself acceptable for its key |
| FlaskValues.ConfigItemsNonEmpty | src/core_codemods/secure_flask_session_config.py:60-64 | each rendered item is non-empty, and there are none iff no entry has a non-`None` first value |
| FlaskValues.ConfigStringEmptyIff | src/core_codemods/secure_flask_session_config.py:60-66 | `config_string` is empty iff no pending entry has a non-`None` first value |
| FlaskValues.FullTableString | src/core_codemods/secure_flask_session_config.py:60-64 | the whole table renders as `SESSION_COOKIE_SECURE=True, SESSION_COOKIE_SAMESITE='Lax'` |
| FlaskFix.StoreFlaskApp | src/core_codemods/secure_flask_session_config.py:102-107 | an app created as an assignment's value is named by the first target; any other parent changes nothing |
| FlaskFix.RewriteArg | src/core_codemods/secure_flask_session_config.py:136-142 | the keyword is kept; other keys pass unchanged; a secure key ends with an acceptable value, and an already acceptable one is kept; an unacceptable one is replaced by the ranked choice `_get_secure_config_val` gives (the first acceptable value, or the second when the first is `None`) |
| FlaskFix.SameSiteGetsLax | src/core_codemods/secure_flask_session_config.py:88-117 | `SESSION_COOKIE_SAMESITE='None'` becomes `'Lax'`, the first-ranked policy, not `'Strict'` |
| FlaskFix.RewriteArgIdempotent | src/core_codemods/secure_flask_session_config.py:136-142 | rewriting an argument twice is rewriting it once |
| FlaskFix.CallWithSecureConfigs | src/core_codemods/secure_flask_session_config.py:132-146 | the arguments are rewritten one by one; their secure keys leave the pending settings; one change is recorded iff the argument list changed |
| FlaskFix.UpdateCallSettles | src/core_codemods/secure_flask_session_config.py:132-146 | afterwards every secure argument is acceptable, and a change is recorded iff some written secure value was not |
| FlaskFix.OtherArgsUntouched | src/core_codemods/secure_flask_session_config.py:136-142 | an argument with a key outside the table stays as it was, in place |
| FlaskFix.CallWithSecureConfigsAsWritten | src/core_codemods/secure_flask_session_config.py:144-145 | as written, same call and pending settings as the corrected version; the comparison is tuple against list |
| FlaskFix.AsWrittenAlwaysReports | src/core_codemods/secure_flask_session_config.py:144-145 | as written, every update call appends a change, whatever its arguments |
| FlaskFix.AsWrittenReportsSecureCall | src/core_codemods/secure_flask_session_config.py:144-145 | `app.config.update(SESSION_COOKIE_SECURE=True)` is reported as written but not when corrected |
| FlaskFix.SecureTrueArgKept | src/core_codemods/secure_flask_session_config.py:139 | `SESSION_COOKIE_SECURE=True` is acceptable and kept as is |
| FlaskFix.LeaveCall | src/core_codemods/secure_flask_session_config.py:123-130 | a `flask.Flask` call assigned to a name sets the app name; once an app is known, exactly its `.config.update` calls are rewritten (only their arguments; callee and position are kept), their keys dropped from the pending ones and one change recorded iff an argument changed; any other call leaves the node, the pending settings and the changes as they were |
| FlaskFix.AssignWithSecureConfig | src/core_codemods/secure_flask_session_config.py:153-163 | a secure key leaves the pending settings and ends with an acceptable value; the statement changes, to the same assignment with the ranked replacement value, and one change is recorded iff the old value was not acceptable; other keys change nothing |
| FlaskFix.LeaveAssign | src/core_codemods/secure_flask_session_config.py:148-151 | only `app.config[...] = ...` after the app is known is handled, exactly as `AssignWithSecureConfig` says; any other assignment leaves the statement and state as they were |
| FlaskFix.VisitExpr | src/core_codemods/secure_flask_session_config.py:36 | the walk over an expression only appends changes and removes pending settings; an app name is known afterwards iff it was before or the expression creates one; with no app, nothing changes |
| FlaskFix.VisitBody | src/core_codemods/secure_flask_session_config.py:36 | the same for a statement list: the app is named iff some statement creates it, and without one the body and state come back unchanged |
| FlaskFix.InsertSecureConfigs | src/core_codemods/secure_flask_session_config.py:50-71 | an empty `config_string` leaves the module; otherwise exactly one `app.config.update(<config_string>)` statement is appended and one change is recorded at the module's last line |
| FlaskFix.TransformModuleSpec | src/core_codemods/secure_flask_session_config.py:34-48 | the change list only grows, and a module that creates no app comes back unchanged |
| FlaskFix.CreateAppStep | src/core_codemods/secure_flask_session_config.py:123-126 | visiting `app = Flask()` names the app `app` and changes nothing else |
| FlaskFix.SecureFlagValues | src/core_codemods/secure_flask_session_config.py:88-117 | `SESSION_COOKIE_SECURE` is a secure key, `False` is not acceptable for it, and its replacement is `True` |
| FlaskFix.InsecureWriteStep | src/core_codemods/secure_flask_session_config.py:153-163 | `app.config["SESSION_COOKIE_SECURE"] = False` becomes `= True`, is reported at its line and drops the key from the pending ones |
| FlaskFix.TransformWithApp | src/core_codemods/secure_flask_session_config.py:38-71 | once an app is found, the result is the visited body followed by one `app.config.update(...)` of exactly the pending settings that render, appended iff some does, with one change at the module's last line iff it is appended |
| FlaskFix.InsertAppends | src/core_codemods/secure_flask_session_config.py:65-71 | a non-empty `config_string` is appended as `app.config.update(...)` with one change at the module's end line |
| FlaskFix.AppOnlyModule | src/core_codemods/secure_flask_session_config.py:34-48 | a module that only creates the app gets the whole table appended, with one change at its last line |
| FlaskFix.SameSiteOnlyPending | src/core_codemods/secure_flask_session_config.py:60-64 | once the secure flag is written, only `SESSION_COOKIE_SAMESITE='Lax'` is rendered |
| FlaskFix.ForeignUpdateUntouched | src/core_codemods/secure_flask_session_config.py:127-130 | in a module with no app, `cfg.config.update(d)` with a positional argument is walked and left unchanged, with no change reported |
| FlaskFix.FactoryFixed | src/core_codemods/secure_flask_session_config.py:123-163 | inside a `def create_app():` the walk finds the app and secures `app.config["SESSION_COOKIE_SECURE"] = False`, reporting its line |
| FlaskFix.InsecureAssignmentFixed | src/core_codemods/secure_flask_session_config.py:34-48 | `app = Flask()` then `app.config["SESSION_COOKIE_SECURE"] = False`: the write is secured and reported, then the same-site setting is appended and reported |
| FlaskConfig.FixFlaskConfig.constructor | src/core_codemods/secure_flask_session_config.py:96-100 | no app name, a copy of the whole table pending, the file's change list untouched |
| FlaskConfig.FixFlaskConfig.StoreFlaskApp | src/core_codemods/secure_flask_session_config.py:102-107 | the fields become `FlaskFix.StoreFlaskApp` of the old ones |
| FlaskConfig.FixFlaskConfig.RemoveConfig | src/core_codemods/secure_flask_session_config.py:109-113 | the pending dictionary loses the key, if present; nothing else changes |
| FlaskConfig.FixFlaskConfig.ReportChange | src/core_codemods/secure_flask_session_config.py:182-189 | one change at the node's first line is appended to the file context |
| FlaskConfig.FixFlaskConfig.CallNodeWithSecureConfigs | src/core_codemods/secure_flask_session_config.py:132-146 | the argument loop returns the call and leaves the fields exactly as `FlaskFix.CallWithSecureConfigs` says |
| FlaskConfig.FixFlaskConfig.LeaveCall | src/core_codemods/secure_flask_session_config.py:123-130 | result and new fields are those of `FlaskFix.LeaveCall` |
| FlaskConfig.FixFlaskConfig.AssignNodeWithSecureConfig | src/core_codemods/secure_flask_session_config.py:153-163 | result and new fields are those of `FlaskFix.AssignWithSecureConfig` |
| FlaskConfig.FixFlaskConfig.LeaveAssign | src/core_codemods/secure_flask_session_config.py:148-151 | result and new fields are those of `FlaskFix.LeaveAssign` |
| FlaskConfig.FixFlaskConfig.VisitBody | src/core_codemods/secure_flask_session_config.py:36 | the recursive walk leaves the body and fields as `FlaskFix.VisitBody` says |
| FlaskConfig.PendingStep | src/core_codemods/secure_flask_session_config.py:136-138 | each loop turn keeps the pending settings equal to the table without the keys written so far |
| FlaskConfig.SecureFlaskSessionConfig.TransformModuleImpl | src/core_codemods/secure_flask_session_config.py:34-48 | the module and the file's change list become `FlaskFix.TransformModuleSpec` of the input |
| FlaskConfig.SecureFlaskSessionConfig.InsertSecureConfigs | src/core_codemods/secure_flask_session_config.py:50-71 | the module and change list are those of `FlaskFix.InsertSecureConfigs` |
| FlaskConfig.SecureFlaskSessionConfig.ReportChangeEndOfModule | src/core_codemods/secure_flask_session_config.py:73-79 | one change at the module's last line is appended |
| CodeTFReporter.Put | codemodder/report/codetf_reporter.py:32-34 | after `d[key] = value` the key maps to the value and every other key to its old value |
| CodeTFReporter.PutKeepsOrder | codemodder/report/codetf_reporter.py:32-34 | the keys grow by the key; an existing key keeps its place, a new one goes last |
| CodeTFReporter.BaseReportShape | codemodder/report/codetf_reporter.py:7-16 | the skeleton has exactly `run` and `results`; the run names vendor `pixee`, tool `codemodder-python`, the version and no SARIF inputs; the results are empty |
| CodeTFReporter.RecreateCommandParses | codemodder/report/codetf_reporter.py:36-37 | the command line is `python -m codemodder ` followed by the arguments, which splitting on spaces gives back when none contains a space |
| CodeTFReporter.RecreateCommandExample | integration_tests/test_url_sandbox.py:25-28 | the command line of the integration run is `python -m codemodder tests/samples/ --output test-codetf.txt --codemod-include=url-sandbox` |
| CodeTFReporter.CodeTF.constructor | codemodder/report/codetf_reporter.py:27-29 | the report starts as the skeleton |
| CodeTFReporter.CodeTF.Generate | codemodder/report/codetf_reporter.py:31-34 | the run gets `elapsed`, `commandLine` and `directory`; every other run field and top-level key is kept, and the top-level keys stay the same |
| CodeTFReporter.CodeTF.WriteReport | codemodder/report/codetf_reporter.py:39-48 | the status is 2 exactly when opening or writing raised, and 0 otherwise |
| CodeTFReporter.ReportDefault | codemodder/report/codetf_reporter.py:19-23 | the written report has keys `run` and `results`, empty results, and a run with vendor, tool, version, no SARIF inputs and the three generated fields |
| Semgrep.ConfigPairs | codemodder/semgrep.py:24-28 | two tokens per rule file |
| Semgrep.ConfigPairsAt | codemodder/semgrep.py:24-28 | the `i`-th pair is `--config` then the `i`-th file |
| Semgrep.ConfigPairsAppend | codemodder/semgrep.py:24-28 | the pairs of two file lists are the pairs of each, in order |
| Semgrep.BuildCommand | codemodder/semgrep.py:15-29 | `8 + 2n` tokens: the seven fixed scan tokens with the temporary SARIF name, then `--config <file>` per file in order, then the project root |
| Semgrep.FlattenAppend | codemodder/semgrep.py:52 | flattening runs one after another keeps their order |
| Semgrep.FlattenMembers | codemodder/semgrep.py:52 | a result is in the flat list iff it belongs to some run |
| Semgrep.GroupByRuleId | codemodder/semgrep.py:53 | the keys are exactly the rule ids present, and each key maps to one of the results with that id |
| Semgrep.LastOccurrenceWins | codemodder/semgrep.py:53 | for a repeated rule id the last result is the one kept |
| Semgrep.ResultsByRuleId | codemodder/semgrep.py:52-53 | a rule id is a key iff some result of some run has it, and it maps to a result with that id |
| GenerateDocs.Metadata | src/scripts/generate_docs.py:17-121 | the table lists exactly the 23 rules with their importance |
| GenerateDocs.MetadataNeedsNoSarif | src/scripts/generate_docs.py:7-13 | every listed rule needs no SARIF tool and has importance Low, Medium or High |
| GenerateDocs.FormatReference | src/scripts/generate_docs.py:131 | each reference renders as a list item starting with `*` |
| GenerateDocs.FormattedReferences | src/scripts/generate_docs.py:130-132 | one formatted line per reference, in order |
| GenerateDocs.NoReferencesIff | src/scripts/generate_docs.py:133 | the references section is `N/A` exactly when there are no references |
| GenerateDocs.ReferencesOnePerLine | src/scripts/generate_docs.py:133 | splitting the section on newlines gives the formatted references back when they contain no newline |
| GenerateDocs.GenerateDocs | src/scripts/generate_docs.py:124-163 | a rule missing from the metadata fails with `Must add <name> to METADATA`; otherwise the page starts with the front matter and ends with the references and a newline |
| GenerateDocs.UnlistedRuleFails | src/scripts/generate_docs.py:125-128 | with the real table, generation fails exactly for rules it does not list |
| GenerateDocs.DocFileNameSafe | src/scripts/generate_docs.py:180 | the page name has neither `:` nor `/`, keeps every other character in place and ends with `.md` |
| GenerateDocs.DocFileNameExample | src/scripts/generate_docs.py:180 | `pixee:python/secure-random` gets the page `pixee_python_secure-random.md` |

## Left out

- The libcst machinery is not modelled: parsing, metadata providers, matchers and the `transform_module` driver.
  The syntax tree covers the node kinds the rules look at. `def`, `class`, `with`, `for`, `while` and `try` are one
  `Compound` statement: its header expressions and its nested statements, which the Flask walk enters. A parameter's
  name, a loop target and an `as` name are not part of it. Any other statement is an opaque `Source` node.
- A node's position is a field of the node. `lineno_for_node` and the position provider give its lines.
- Name resolution (`find_base_name`) and `CHANGE_DESCRIPTION` are parameters of the Flask rule (`FlaskEnv`).
- `clean_simplestring` is not modelled: a `SimpleString` node holds its text already unquoted.
- FlaskFix.VisitExpr: a post-order walk stands in for libcst's traversal. It visits children left to right, then runs the node's `leave_` hook, and only `leave_Call` and `leave_Assign` act.
- FlaskFix.LeaveCall: a module that calls `name.config.update` with a positional or `**` argument, where `name` is a name the module assigns a `flask.Flask(...)` call to (`FlaskEnv.appNames`), is excluded by `requires`. Once the app is known the source reads `arg.keyword.value` and fails on such a call. The exclusion also covers such a call placed before the app is created, which the source leaves alone. An `update` call on any other name is modelled, whatever its arguments.
- FlaskFix.LeaveCall, FlaskFix.VisitExpr, FlaskFix.VisitBody, FlaskFix.TransformModuleSpec, FlaskConfig.FixFlaskConfig.CallNodeWithSecureConfigs, FlaskConfig.FixFlaskConfig.LeaveCall, FlaskConfig.FixFlaskConfig.VisitBody and FlaskConfig.SecureFlaskSessionConfig.TransformModuleImpl follow the corrected comparison of line 144 (see Findings), not the code as written. As written, `app.config.update(DEBUG=True)` records a change. `FlaskFix.CallWithSecureConfigsAsWritten` models the code as written.
- FlaskFix.VisitBody: annotated assignments (`app: Flask = Flask()`) are not part of the syntax tree. An app assigned to an attribute or subscript target (`self.app = Flask()`) is excluded by `requires`, because the source then stores that target's `.value`, a node rather than a string, as the app name, and later fails building `cst.Name(value=...)` from it in `_is_config_update_call` and `_is_config_subscript`. A `Flask(...)` call that is not an assignment's value is modelled and names no app.
- FlaskValues.TrueValue: `str.lower` is modelled on ASCII letters only.
- The Flask rule's hooks do not consult the line filter, and neither does the model.
- CodeTFReporter.ReportDefault: `__VERSION__` and `abspath` of the target directory are parameters. Opening and writing the output file is a predicate that says whether it raises. `json.dump` and logging are not modelled.
- The report's `results` list is filled by code outside this core and is left empty.
- Semgrep.BuildCommand: the temporary SARIF file name is a parameter. The `subprocess.run` call, the print and the file reading are not modelled, and the SARIF file is modelled once parsed.
- `find_all_yaml_files` and `get_results` only read the file system and are not modelled.
- GenerateDocs.Metadata: the `guidance_explained` texts are supplied by a parameter, because the table's importance and SARIF fields are what the page logic depends on.
- The `main` of the documentation generator (argument parsing, the registry and file writing) is not modelled, except for the file name it computes.
- The commented-out `leave_Assert` of the empty-sequence rule is dead code and is not modelled.
- ProcessSandbox.ProcessSandbox.LeaveCall: the scanner's result filter is a parameter. `rule_ids_from_yaml_files` is not part of this model.
- ProcessSandbox.ProcessSandbox.LeaveCall: a flagged call whose callee is a bare name (`run(cmd)` after `from subprocess import run`) is excluded by `requires`. The source calls `with_changes(value=...)` on that `Name` node, which libcst rejects.
- Semgrep.SarifResult: a SARIF result without a `ruleId` cannot be represented. `results_by_rule_id` fails with `KeyError` on such a result.

## Findings

| source | as written | input that shows it | evidently intended | confidence | as-written member | corrected member |
|---|---|---|---|---|---|---|
| src/core_codemods/secure_flask_session_config.py:144 | `updated_node.args != new_args` compares libcst's argument tuple with a list, which Python never finds equal, so every `app.config.update(...)` call is reported as a change | `app = Flask()` followed by `app.config.update(SESSION_COOKIE_SECURE=True)`, which the rule leaves as it is | a change is recorded only when some argument was rewritten | not executed | FlaskFix.CallWithSecureConfigsAsWritten | FlaskFix.CallWithSecureConfigs |
