/** The CodeTF report (codemodder/report/codetf_reporter.py): its fixed
    skeleton, the run fields `generate` fills in, the reconstructed command
    line and the status `write_report` returns. */
module CodeTFReporter {
  import opened Syntax
  import Strings

  /** A JSON value; an object keeps its fields in insertion order, like a
      Python dict. */
  datatype Json = JStr(s: string) | JArray(items: seq<Json>) | JObject(fields: seq<Field>)

  datatype Field = Field(key: string, value: Json)

  function Keys(fields: seq<Field>): set<string>
  {
    if fields == [] then {} else {fields[0].key} + Keys(fields[1..])
  }

  /** `d[key]` when present. */
  function Get(fields: seq<Field>, key: string): Option<Json>
  {
    if fields == [] then None
    else if fields[0].key == key then Some(fields[0].value)
    else Get(fields[1..], key)
  }

  lemma {:induction false} GetFindsKeys(fields: seq<Field>, key: string)
    ensures Get(fields, key).Some? <==> key in Keys(fields)
  {
    if fields != [] {
      GetFindsKeys(fields[1..], key);
    }
  }

  /** `d[key] = value`: the key maps to the new value and every other key to
      what it mapped to before. */
  function Put(fields: seq<Field>, key: string, value: Json): (r: seq<Field>)
    ensures Get(r, key) == Some(value)
    ensures forall k :: k != key ==> Get(r, k) == Get(fields, k)
  {
    if fields == [] then [Field(key, value)]
    else if fields[0].key == key then [Field(key, value)] + fields[1..]
    else
      var rest := Put(fields[1..], key, value);
      assert ([fields[0]] + rest)[1..] == rest;
      [fields[0]] + rest
  }

  /** Like a Python dict, an existing key keeps its place and a new one goes last. */
  lemma {:induction false} PutKeepsOrder(fields: seq<Field>, key: string, value: Json)
    ensures var r := Put(fields, key, value);
            && Keys(r) == Keys(fields) + {key}
            && (key in Keys(fields) ==> |r| == |fields| && forall i :: 0 <= i < |r| ==> r[i].key == fields[i].key)
            && (key !in Keys(fields) ==> r == fields + [Field(key, value)])
  {
    if fields != [] && fields[0].key != key {
      var rest := Put(fields[1..], key, value);
      PutKeepsOrder(fields[1..], key, value);
      assert ([fields[0]] + rest)[1..] == rest;
      if key !in Keys(fields) {
        assert [fields[0]] + (fields[1..] + [Field(key, value)]) == fields + [Field(key, value)];
      }
    } else if fields != [] {
      assert ([Field(key, value)] + fields[1..])[1..] == fields[1..];
    }
  }

  /** `base_report`; `__VERSION__` is a parameter. */
  function BaseReport(version: string): Json
  {
    JObject([Field("run", JObject(BaseRun(version))), Field("results", JObject([]))])
  }

  /** The `run` entry of the skeleton. */
  function BaseRun(version: string): seq<Field>
  {
    [
      Field("vendor", JStr("pixee")),
      Field("tool", JStr("codemodder-python")),
      Field("version", JStr(version)),
      Field("sarifs", JArray([]))
    ]
  }

  /** The skeleton has exactly the keys `run` and `results`; the run names the
      vendor and the tool and has no SARIF inputs; the results are empty. */
  lemma BaseReportShape(version: string)
    ensures var r := BaseReport(version);
            && r.JObject? && Keys(r.fields) == {"run", "results"}
            && Get(r.fields, "results") == Some(JObject([]))
            && Get(r.fields, "run") == Some(JObject(BaseRun(version)))
    ensures var run := BaseRun(version);
            && Keys(run) == {"vendor", "tool", "version", "sarifs"}
            && Get(run, "vendor") == Some(JStr("pixee"))
            && Get(run, "tool") == Some(JStr("codemodder-python"))
            && Get(run, "version") == Some(JStr(version))
            && Get(run, "sarifs") == Some(JArray([]))
  {
    var r := BaseReport(version);
    assert r.fields[1..] == [Field("results", JObject([]))];
    assert r.fields[1..][1..] == [];
    var run := BaseRun(version);
    var run3 := [Field("sarifs", JArray([]))];
    var run2 := [Field("version", JStr(version))] + run3;
    var run1 := [Field("tool", JStr("codemodder-python"))] + run2;
    assert run[1..] == run1 && run1[1..] == run2 && run2[1..] == run3 && run3[1..] == [];
    assert Keys(run3) == {"sarifs"};
    assert Keys(run2) == {"version", "sarifs"};
    assert Keys(run1) == {"tool", "version", "sarifs"};
    assert Get(run2, "sarifs") == Some(JArray([]));
    assert Get(run1, "sarifs") == Some(JArray([]));
    assert Get(run1, "version") == Some(JStr(version));
  }

  const CommandPrefix := "python -m codemodder "

  /** `_recreate_command`. */
  function RecreateCommand(originalArgs: seq<string>): string
  {
    CommandPrefix + Strings.Join(originalArgs, " ")
  }

  /** The command line is the fixed prefix followed by the arguments; when no
      argument contains a space, splitting the rest on spaces gives them back. */
  lemma RecreateCommandParses(originalArgs: seq<string>)
    requires |originalArgs| >= 1
    requires forall i :: 0 <= i < |originalArgs| ==> ' ' !in originalArgs[i]
    ensures var c := RecreateCommand(originalArgs);
            |c| >= |CommandPrefix| && c[..|CommandPrefix|] == CommandPrefix
            && Strings.Split(c[|CommandPrefix|..], ' ') == originalArgs
  {
    var c := RecreateCommand(originalArgs);
    assert c[|CommandPrefix|..] == Strings.Join(originalArgs, [' ']);
    Strings.SplitJoin(originalArgs, ' ');
  }

  /** Four arguments are written out separated by single spaces. */
  lemma RecreateCommandFour(a: string, b: string, c: string, d: string)
    ensures RecreateCommand([a, b, c, d]) == CommandPrefix + a + " " + b + " " + c + " " + d
  {
    var args := [a, b, c, d];
    assert args[1..] == [b, c, d] && args[1..][1..] == [c, d] && args[1..][1..][1..] == [d];
    assert Strings.Join([c, d], " ") == c + " " + d;
    assert Strings.Join([b, c, d], " ") == b + " " + (c + " " + d);
    assert Strings.Join(args, " ") == a + " " + (b + " " + (c + " " + d));
  }

  /** The command line of the integration test. */
  lemma RecreateCommandExample()
    ensures RecreateCommand(["tests/samples/", "--output", "test-codetf.txt", "--codemod-include=url-sandbox"])
         == CommandPrefix + "tests/samples/" + " " + "--output" + " " + "test-codetf.txt" + " "
            + "--codemod-include=url-sandbox"
  {
    RecreateCommandFour("tests/samples/", "--output", "test-codetf.txt", "--codemod-include=url-sandbox");
  }

  /** `CodeTF`: the report is a dict the object updates in place. */
  class CodeTF {
    var report: Json

    /** The report is an object whose `run` entry is an object. */
    predicate Valid()
      reads this
    {
      report.JObject? && Get(report.fields, "run").Some? && Get(report.fields, "run").value.JObject?
    }

    /** `self.report["run"][key]`, when present. */
    function RunField(key: string): Option<Json>
      reads this
      requires Valid()
    {
      Get(Get(report.fields, "run").value.fields, key)
    }

    /** `__init__`. */
    constructor (version: string)
      ensures report == BaseReport(version) && Valid()
    {
      report := BaseReport(version);
    }

    /** `generate`: sets the run's `elapsed`, `commandLine` and `directory`;
      `absolutePath` is what `abspath` returned for the target directory. */
    method Generate(elapsedMs: int, originalArgs: seq<string>, absolutePath: string)
      requires Valid()
      modifies this
      ensures Valid()
      ensures RunField("elapsed") == Some(JStr(Strings.IntString(elapsedMs)))
      ensures RunField("commandLine") == Some(JStr(RecreateCommand(originalArgs)))
      ensures RunField("directory") == Some(JStr(absolutePath))
      ensures forall k :: k != "elapsed" && k != "commandLine" && k != "directory" ==> RunField(k) == old(RunField(k))
      ensures forall k :: k != "run" ==> Get(report.fields, k) == old(Get(report.fields, k))
      ensures Keys(report.fields) == old(Keys(report.fields))
    {
      var run := Get(report.fields, "run").value.fields;
      run := Put(run, "elapsed", JStr(Strings.IntString(elapsedMs)));
      run := Put(run, "commandLine", JStr(RecreateCommand(originalArgs)));
      run := Put(run, "directory", JStr(absolutePath));
      GetFindsKeys(report.fields, "run");
      PutKeepsOrder(report.fields, "run", JObject(run));
      report := JObject(Put(report.fields, "run", JObject(run)));
    }

    /** `write_report`: `writeRaises` says whether opening or writing the file
      raised; the status is 2 exactly then, and 0 otherwise. */
    method WriteReport(writeRaises: Json -> bool) returns (status: int)
      ensures status == 2 <==> writeRaises(report)
      ensures status == 0 <==> !writeRaises(report)
    {
      if writeRaises(report) {
        return 2;
      }
      return 0;
    }
  }

  /** `report_default`: a fresh report, generated and written; the status of
      the write is discarded. The written report has the skeleton's keys and
      run identity plus the three generated fields; `absolutePath` is `abspath`
      of the target directory. */
  method ReportDefault(version: string, elapsedMs: int, originalArgs: seq<string>, absolutePath: string,
                       writeRaises: Json -> bool) returns (written: Json)
    ensures written.JObject? && Keys(written.fields) == {"run", "results"}
    ensures Get(written.fields, "results") == Some(JObject([]))
    ensures Get(written.fields, "run").Some? && Get(written.fields, "run").value.JObject?
    ensures var run := Get(written.fields, "run").value.fields;
            && Get(run, "vendor") == Some(JStr("pixee"))
            && Get(run, "tool") == Some(JStr("codemodder-python"))
            && Get(run, "version") == Some(JStr(version))
            && Get(run, "sarifs") == Some(JArray([]))
            && Get(run, "elapsed") == Some(JStr(Strings.IntString(elapsedMs)))
            && Get(run, "commandLine") == Some(JStr(RecreateCommand(originalArgs)))
            && Get(run, "directory") == Some(JStr(absolutePath))
  {
    BaseReportShape(version);
    var report := new CodeTF(version);
    assert report.RunField("vendor") == Some(JStr("pixee"));
    assert report.RunField("tool") == Some(JStr("codemodder-python"));
    assert report.RunField("version") == Some(JStr(version));
    assert report.RunField("sarifs") == Some(JArray([]));
    report.Generate(elapsedMs, originalArgs, absolutePath);
    assert report.RunField("vendor") == Some(JStr("pixee"));
    assert report.RunField("tool") == Some(JStr("codemodder-python"));
    assert report.RunField("version") == Some(JStr(version));
    assert report.RunField("sarifs") == Some(JArray([]));
    written := report.report;
    var _ := report.WriteReport(writeRaises);
  }
}
