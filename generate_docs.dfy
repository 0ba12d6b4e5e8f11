/** The documentation page generator (src/scripts/generate_docs.py): the
    per-rule documentation metadata, the page rendered for a rule, and the name
    of the file the page is written to. */
module GenerateDocs {
  import Strings

  datatype Result<T> = Success(value: T) | Failure(error: string)

  /** `DocMetadata`; a rule needs no SARIF tool unless it says so. */
  datatype DocMetadata = DocMetadata(importance: string, guidanceExplained: string, needSarif: string := "No")

  /** A reference of a rule: `{"url": ..., "description": ...}`. */
  datatype Reference = Reference(url: string, description: string)

  /** The attributes of a registered rule that the page uses. */
  datatype Codemod = Codemod(name: string, id: string, summary: string, description: string,
                             reviewGuidance: string, references: seq<Reference>)

  /** The importance of each rule listed in `METADATA`. */
  const MetadataImportance: map<string, string> := map[
    "django-debug-flag-on" := "Medium",
    "django-session-cookie-secure-off" := "Medium",
    "enable-jinja2-autoescape" := "High",
    "fix-mutable-params" := "Medium",
    "harden-pyyaml" := "Medium",
    "harden-ruamel" := "Medium",
    "https-connection" := "High",
    "jwt-decode-verify" := "High",
    "limit-readline" := "Medium",
    "safe-lxml-parser-defaults" := "High",
    "safe-lxml-parsing" := "High",
    "order-imports" := "Low",
    "sandbox-process-creation" := "High",
    "remove-unnecessary-f-str" := "Low",
    "unused-imports" := "Low",
    "requests-verify" := "High",
    "secure-random" := "High",
    "secure-tempfile" := "High",
    "upgrade-sslcontext-minimum-version" := "High",
    "upgrade-sslcontext-tls" := "High",
    "url-sandbox" := "High",
    "use-walrus-if" := "Low",
    "bad-lock-with-statement" := "Low"
  ]

  /** `METADATA`, with the review-guidance explanation of each rule supplied by
      `guidance`; no entry sets `need_sarif`. */
  function Metadata(guidance: string -> string): (m: map<string, DocMetadata>)
    ensures m.Keys == MetadataImportance.Keys
  {
    map k | k in MetadataImportance :: DocMetadata(MetadataImportance[k], guidance(k))
  }

  /** Every listed rule keeps the default: no SARIF tool needed. */
  lemma MetadataNeedsNoSarif(guidance: string -> string, name: string)
    requires name in MetadataImportance
    ensures Metadata(guidance)[name].needSarif == "No"
    ensures Metadata(guidance)[name].importance in {"Low", "Medium", "High"}
  {
  }

  /** `* [description](url)`. */
  function FormatReference(ref: Reference): (r: string)
    ensures |r| > 0 && r[0] == '*'
  {
    "* [" + ref.description + "](" + ref.url + ")"
  }

  function FormattedReferences(refs: seq<Reference>): (r: seq<string>)
    ensures |r| == |refs|
    ensures forall i :: 0 <= i < |refs| ==> r[i] == FormatReference(refs[i])
  {
    seq(|refs|, i requires 0 <= i < |refs| => FormatReference(refs[i]))
  }

  /** `"\n".join(formatted_references) or "N/A"`. */
  function MarkdownReferences(refs: seq<Reference>): string
  {
    var joined := Strings.Join(FormattedReferences(refs), "\n");
    if joined == "" then "N/A" else joined
  }

  /** The references section reads `N/A` exactly when the rule has no references. */
  lemma NoReferencesIff(refs: seq<Reference>)
    ensures MarkdownReferences(refs) == "N/A" <==> refs == []
  {
    var formatted := FormattedReferences(refs);
    Strings.JoinEmptyIff(formatted, "\n");
    if refs != [] && Strings.Join(formatted, "\n") != "" {
      JoinStartsWithFirst(formatted, "\n");
      assert MarkdownReferences(refs)[0] == '*';
    }
  }

  lemma JoinStartsWithFirst(parts: seq<string>, sep: string)
    requires |parts| >= 1 && |parts[0]| > 0
    ensures |Strings.Join(parts, sep)| > 0 && Strings.Join(parts, sep)[0] == parts[0][0]
  {
  }

  /** The references are listed one per line, in order: when no description or
      url contains a newline, splitting the section on newlines gives each
      formatted reference back. */
  lemma ReferencesOnePerLine(refs: seq<Reference>)
    requires |refs| >= 1
    requires forall i :: 0 <= i < |refs| ==> '\n' !in refs[i].description && '\n' !in refs[i].url
    ensures Strings.Split(MarkdownReferences(refs), '\n') == FormattedReferences(refs)
  {
    var formatted := FormattedReferences(refs);
    forall i | 0 <= i < |formatted|
      ensures '\n' !in formatted[i]
    {
      var ref := refs[i];
      assert formatted[i] == "* [" + ref.description + "](" + ref.url + ")";
    }
    Strings.SplitJoin(formatted, '\n');
    JoinStartsWithFirst(formatted, "\n");
  }

  // The fixed text of the page template, piece by piece.
  const TitleLine := "---\ntitle: "
  const HeadingLines := "sidebar_position: 1\n---\n\n## "
  const TableHead := "\n\n| Importance | Review Guidance            | Requires SARIF Tool |\n"
                     + "|------------|----------------------------|---------------------|\n| "
  const ImportanceGap := "       | "
  const GuidanceGap := " | "
  const SarifGap := "                  |\n\n"
  const Feedback := "\nIf you have feedback on this codemod, [please let us know](mailto:feedback@pixee.ai)!\n\n"
  const FaqHead := "## F.A.Q.\n\n### Why is this codemod marked as "
  const FaqEnd := "?\n\n"
  const SettingsAndReferences := "\n\n## Codemod Settings\n\nN/A\n\n## References\n\n"

  /** The front matter the page starts with. */
  function FrontMatter(summary: string): string
  {
    TitleLine + summary + "\n"
  }

  /** The page between the front matter and the references. */
  function PageBody(codemod: Codemod, data: DocMetadata): string
  {
    HeadingLines + codemod.id + TableHead
    + data.importance + ImportanceGap + codemod.reviewGuidance + GuidanceGap + data.needSarif + SarifGap
    + codemod.description + Feedback
    + FaqHead + codemod.reviewGuidance + FaqEnd
    + data.guidanceExplained + SettingsAndReferences
  }

  /** `generate_docs`: fails for a rule missing from the metadata; otherwise the
      page starts with the front matter and ends with the references and a
      newline. */
  function GenerateDocs(metadata: map<string, DocMetadata>, codemod: Codemod): (r: Result<string>)
    ensures r.Failure? <==> codemod.name !in metadata
    ensures r.Failure? ==> r.error == "Must add " + codemod.name + " to METADATA"
    ensures r.Success? ==>
              var front := FrontMatter(codemod.summary);
              var tail := MarkdownReferences(codemod.references) + "\n";
              && |r.value| >= |front| + |tail|
              && r.value[..|front|] == front
              && r.value[|r.value| - |tail|..] == tail
  {
    if codemod.name !in metadata then Failure("Must add " + codemod.name + " to METADATA")
    else
      var front := FrontMatter(codemod.summary);
      var middle := PageBody(codemod, metadata[codemod.name]);
      var tail := MarkdownReferences(codemod.references) + "\n";
      ConcatEnds(front, middle, tail);
      Success(front + middle + tail)
  }

  lemma ConcatEnds(a: string, b: string, c: string)
    ensures var s := a + b + c;
            |s| >= |a| + |c| && s[..|a|] == a && s[|s| - |c|..] == c
  {
    var s := a + b + c;
    assert s[..|a|] == a;
    assert s[|s| - |c|..] == c;
  }

  /** A rule left out of `METADATA` gets no page. */
  lemma UnlistedRuleFails(guidance: string -> string, codemod: Codemod)
    ensures GenerateDocs(Metadata(guidance), codemod).Failure? <==> codemod.name !in MetadataImportance
  {
  }

  /** The name of a rule's page: its id with `:` and `/` made `_`, plus `.md`. */
  function DocFileName(id: string): string
  {
    Strings.ReplaceChar(Strings.ReplaceChar(id, ':', '_'), '/', '_') + ".md"
  }

  /** The page name has neither `:` nor `/`, keeps every other character of the
      id in place and ends with `.md`. */
  lemma DocFileNameSafe(id: string)
    ensures var f := DocFileName(id);
            && ':' !in f && '/' !in f
            && |f| == |id| + 3 && f[|id|..] == ".md"
            && forall i :: 0 <= i < |id| ==> f[i] == (if id[i] == ':' || id[i] == '/' then '_' else id[i])
  {
    var f := DocFileName(id);
    var once := Strings.ReplaceChar(id, ':', '_');
    var twice := Strings.ReplaceChar(once, '/', '_');
    assert f == twice + ".md";
    forall i | 0 <= i < |f|
      ensures f[i] != ':' && f[i] != '/'
    {
      if i < |id| {
        assert f[i] == twice[i];
      } else {
        assert f[i] == ".md"[i - |id|];
      }
    }
  }

  /** The page name of `pixee:python/secure-random`. */
  lemma DocFileNameExample()
    ensures DocFileName("pixee:python/secure-random") == "pixee_python_secure-random.md"
  {
  }
}
