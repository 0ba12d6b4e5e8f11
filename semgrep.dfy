/** The scanner side of codemodder/semgrep.py: the command-token list `run`
    builds for the scanner, and the grouping of already-parsed SARIF results by
    rule id. */
module Semgrep {

  /** The seven tokens every scan starts with; `tempSarif` is the name of the
      temporary output file. */
  function ScanPrefix(tempSarif: string): seq<string>
  {
    ["semgrep", "scan", "--no-error", "--dataflow-traces", "--sarif", "-o", tempSarif]
  }

  /** One `--config <file>` pair per rule file, in order. */
  function ConfigPairs(yamlFiles: seq<string>): (r: seq<string>)
    ensures |r| == 2 * |yamlFiles|
  {
    if yamlFiles == [] then [] else ["--config", yamlFiles[0]] + ConfigPairs(yamlFiles[1..])
  }

  /** The `i`-th pair is `--config` followed by the `i`-th file. */
  lemma {:induction false} ConfigPairsAt(yamlFiles: seq<string>, i: int)
    requires 0 <= i < |yamlFiles|
    ensures ConfigPairs(yamlFiles)[2 * i] == "--config" && ConfigPairs(yamlFiles)[2 * i + 1] == yamlFiles[i]
  {
    if i > 0 {
      ConfigPairsAt(yamlFiles[1..], i - 1);
      assert ConfigPairs(yamlFiles)[2 * i] == ConfigPairs(yamlFiles[1..])[2 * (i - 1)];
      assert ConfigPairs(yamlFiles)[2 * i + 1] == ConfigPairs(yamlFiles[1..])[2 * (i - 1) + 1];
    }
  }

  lemma {:induction false} ConfigPairsAppend(a: seq<string>, b: seq<string>)
    ensures ConfigPairs(a + b) == ConfigPairs(a) + ConfigPairs(b)
  {
    if a == [] {
      assert a + b == b;
    } else {
      var ab := a + b;
      assert ab[0] == a[0] && ab[1..] == a[1..] + b;
      ConfigPairsAppend(a[1..], b);
      calc {
        ConfigPairs(ab);
        ["--config", a[0]] + ConfigPairs(a[1..] + b);
        ["--config", a[0]] + (ConfigPairs(a[1..]) + ConfigPairs(b));
        (["--config", a[0]] + ConfigPairs(a[1..])) + ConfigPairs(b);
      }
    }
  }

  /** The command list of `run`: the fixed prefix, the `--config` pairs, then the
      project root. */
  method BuildCommand(projectRoot: string, yamlFiles: seq<string>, tempSarif: string) returns (command: seq<string>)
    ensures |command| == 8 + 2 * |yamlFiles|
    ensures command[..7] == ScanPrefix(tempSarif)
    ensures forall i :: 0 <= i < |yamlFiles| ==> command[7 + 2 * i] == "--config" && command[8 + 2 * i] == yamlFiles[i]
    ensures command[|command| - 1] == projectRoot
    ensures command == ScanPrefix(tempSarif) + ConfigPairs(yamlFiles) + [projectRoot]
  {
    command := ScanPrefix(tempSarif);
    var i := 0;
    while i < |yamlFiles|
      invariant 0 <= i <= |yamlFiles|
      invariant command == ScanPrefix(tempSarif) + ConfigPairs(yamlFiles[..i])
    {
      ConfigPairsAppend(yamlFiles[..i], [yamlFiles[i]]);
      assert yamlFiles[..i + 1] == yamlFiles[..i] + [yamlFiles[i]];
      command := command + ["--config", yamlFiles[i]];
      i := i + 1;
    }
    assert yamlFiles[..i] == yamlFiles;
    command := command + [projectRoot];
    forall j | 0 <= j < |yamlFiles|
      ensures command[7 + 2 * j] == "--config" && command[8 + 2 * j] == yamlFiles[j]
    {
      ConfigPairsAt(yamlFiles, j);
    }
  }

  /** A SARIF result: its `ruleId` and the rest of the record. */
  datatype SarifResult = SarifResult(ruleId: string, details: string)

  /** A SARIF run and its results. */
  datatype SarifRun = SarifRun(results: seq<SarifResult>)

  /** `[result for sarif_run in data["runs"] for result in sarif_run["results"]]`. */
  function Flatten(runs: seq<SarifRun>): seq<SarifResult>
  {
    if runs == [] then [] else runs[0].results + Flatten(runs[1..])
  }

  /** Flattening runs one after another keeps run order. */
  lemma {:induction false} FlattenAppend(a: seq<SarifRun>, b: seq<SarifRun>)
    ensures Flatten(a + b) == Flatten(a) + Flatten(b)
  {
    if a == [] {
      assert a + b == b;
    } else {
      var ab := a + b;
      assert Flatten(ab) == a[0].results + Flatten(a[1..] + b) by {
        assert ab[0] == a[0] && ab[1..] == a[1..] + b;
      }
      FlattenAppend(a[1..], b);
      assert Flatten(a) == a[0].results + Flatten(a[1..]);
    }
  }

  /** A result is flattened iff it is one of some run's results. */
  lemma {:induction false} FlattenMembers(runs: seq<SarifRun>)
    ensures forall x :: x in Flatten(runs) <==> exists i :: 0 <= i < |runs| && x in runs[i].results
  {
    if runs != [] {
      FlattenMembers(runs[1..]);
      assert forall i :: 1 <= i < |runs| ==> runs[i] == runs[1..][i - 1];
      forall x | x in Flatten(runs)
        ensures exists i :: 0 <= i < |runs| && x in runs[i].results
      {
        if x !in runs[0].results {
          assert x in Flatten(runs[1..]);
          var j :| 0 <= j < |runs[1..]| && x in runs[1..][j].results;
          assert x in runs[j + 1].results;
        }
      }
      forall x | exists i :: 0 <= i < |runs| && x in runs[i].results
        ensures x in Flatten(runs)
      {
        var i :| 0 <= i < |runs| && x in runs[i].results;
        if i > 0 {
          assert x in runs[1..][i - 1].results;
        }
      }
    }
  }

  /** `{r["ruleId"]: r for r in results}`: later results overwrite earlier ones. */
  function GroupByRuleId(results: seq<SarifResult>): (m: map<string, SarifResult>)
    ensures m.Keys == set i | 0 <= i < |results| :: results[i].ruleId
    ensures forall k :: k in m ==> m[k].ruleId == k && m[k] in results
  {
    if results == [] then map[]
    else
      var n := |results| - 1;
      var m := GroupByRuleId(results[..n]);
      assert forall i :: 0 <= i < n ==> results[..n][i] == results[i];
      m[results[n].ruleId := results[n]]
  }

  /** When a rule id repeats, its last result is the one kept. */
  lemma {:induction false} LastOccurrenceWins(results: seq<SarifResult>, j: int)
    requires 0 <= j < |results|
    requires forall i :: j < i < |results| ==> results[i].ruleId != results[j].ruleId
    ensures GroupByRuleId(results)[results[j].ruleId] == results[j]
  {
    var n := |results| - 1;
    if j < n {
      assert forall i :: j < i < n ==> results[..n][i] == results[i];
      LastOccurrenceWins(results[..n], j);
      assert results[..n][j] == results[j];
    }
  }

  /** `results_by_rule_id` over the parsed SARIF runs. */
  function ResultsByRuleId(runs: seq<SarifRun>): (m: map<string, SarifResult>)
    ensures forall k :: k in m ==> m[k].ruleId == k
    ensures forall k :: k in m <==> exists i, x :: 0 <= i < |runs| && x in runs[i].results && x.ruleId == k
  {
    var flat := Flatten(runs);
    FlattenMembers(runs);
    var m := GroupByRuleId(flat);
    assert forall k :: k in m <==> exists x :: x in flat && x.ruleId == k by {
      forall k | exists x :: x in flat && x.ruleId == k
        ensures k in m
      {
        var x :| x in flat && x.ruleId == k;
        var i :| 0 <= i < |flat| && flat[i] == x;
        assert flat[i].ruleId == k;
      }
    }
    m
  }
}
