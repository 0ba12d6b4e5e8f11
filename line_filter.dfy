/** The per-node line scoping that order-imports, fix-empty-sequence-comparison
    and process-sandbox apply before rewriting
    (`filter_by_path_includes_or_excludes` and `match_line` in
    codemodder/codemods/order_imports.py). The include and exclude line lists
    come from the file context and are fixed for the whole file. */
module LineScope {
  import opened Syntax

  datatype LineFilter = LineFilter(lineInclude: seq<int>, lineExclude: seq<int>)

  /** A node matches a line when it starts and ends on that line. */
  predicate MatchLine(pos: Position, line: int)
  {
    pos.startLine == line && pos.endLine == line
  }

  /** `any(match_line(pos, line) for line in lines)`, scanning left to right. */
  predicate AnyMatch(pos: Position, lines: seq<int>)
  {
    if lines == [] then false else MatchLine(pos, lines[0]) || AnyMatch(pos, lines[1..])
  }

  /** Whether a node at `pos` is in scope: a non-empty exclude list decides
      alone; otherwise a non-empty include list decides; otherwise yes. */
  predicate InScope(pos: Position, f: LineFilter)
  {
    if f.lineExclude != [] then !AnyMatch(pos, f.lineExclude)
    else if f.lineInclude != [] then AnyMatch(pos, f.lineInclude)
    else true
  }

  /** The scan finds a match exactly when some listed line matches. */
  lemma {:induction false} AnyMatchIff(pos: Position, lines: seq<int>)
    ensures AnyMatch(pos, lines) <==> exists i :: 0 <= i < |lines| && MatchLine(pos, lines[i])
  {
    if lines != [] {
      AnyMatchIff(pos, lines[1..]);
      if exists i :: 0 <= i < |lines| && MatchLine(pos, lines[i]) {
        var i :| 0 <= i < |lines| && MatchLine(pos, lines[i]);
        if i > 0 {
          assert lines[1..][i - 1] == lines[i];
        }
      }
      if exists j :: 0 <= j < |lines[1..]| && MatchLine(pos, lines[1..][j]) {
        var j :| 0 <= j < |lines[1..]| && MatchLine(pos, lines[1..][j]);
        assert lines[j + 1] == lines[1..][j];
      }
    }
  }

  /** With a non-empty exclude list, a node is in scope iff no excluded line
      matches it, whatever the include list says. */
  lemma ExcludeTakesPrecedence(pos: Position, f: LineFilter)
    requires f.lineExclude != []
    ensures InScope(pos, f) <==> forall i :: 0 <= i < |f.lineExclude| ==> !MatchLine(pos, f.lineExclude[i])
    ensures forall inc :: InScope(pos, f) == InScope(pos, f.(lineInclude := inc))
  {
    AnyMatchIff(pos, f.lineExclude);
  }

  /** With no exclude list and a non-empty include list, a node is in scope iff
      some included line matches it. */
  lemma IncludeSelects(pos: Position, f: LineFilter)
    requires f.lineExclude == [] && f.lineInclude != []
    ensures InScope(pos, f) <==> exists i :: 0 <= i < |f.lineInclude| && MatchLine(pos, f.lineInclude[i])
  {
    AnyMatchIff(pos, f.lineInclude);
  }

  /** With both lists empty every node is in scope. */
  lemma NoFilterAdmitsAll(pos: Position, f: LineFilter)
    requires f.lineExclude == [] && f.lineInclude == []
    ensures InScope(pos, f)
  {
  }

  /** A node spanning several lines matches no line: an exclude list never
      rules it out, and an include list (without excludes) never rules it in. */
  lemma MultiLineNode(pos: Position, f: LineFilter)
    requires pos.startLine != pos.endLine
    ensures f.lineExclude != [] ==> InScope(pos, f)
    ensures f.lineExclude == [] && f.lineInclude != [] ==> !InScope(pos, f)
  {
    AnyMatchIff(pos, f.lineExclude);
    AnyMatchIff(pos, f.lineInclude);
  }

  /** A node on line 7 with line 7 both included and excluded is out of scope. */
  lemma ExcludeWinsOnSameLine()
    ensures !InScope(Position(7, 7), LineFilter([7], [7]))
  {
    assert MatchLine(Position(7, 7), 7);
  }
}
