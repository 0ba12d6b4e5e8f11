/** The `fix-empty-sequence-comparison` rule
    (src/core_codemods/fix_empty_sequence_comparison.py): an `if` whose test
    compares something with an empty list, dict or tuple literal using `==` or
    `!=` is rewritten to test the other operand's truth directly. */
module EmptySequenceComparison {
  import opened Syntax
  import opened LineScope

  /** `_is_empty_sequence`: an empty list, dict or tuple literal. */
  predicate IsEmptySequence(e: Expr)
  {
    match e
    case List(elements) => elements == []
    case Dict(elements) => elements == []
    case Tuple(elements) => elements == []
    case _ => false
  }

  /** The only tests the rule looks at: one comparison, by `==` or `!=`. */
  predicate SingleEquality(test: Expr)
  {
    test.Comparison? && |test.comparisons| == 1
    && (test.comparisons[0].operator.Equal? || test.comparisons[0].operator.NotEqual?)
  }

  /** A test the rule rewrites: a single equality with an empty literal on a side. */
  predicate Rewritable(test: Expr)
  {
    SingleEquality(test)
    && (IsEmptySequence(test.left) || IsEmptySequence(test.comparisons[0].comparator))
  }

  /** The operand that survives: the right one if the left is empty, else the left. */
  function KeptOperand(test: Expr): Expr
    requires SingleEquality(test)
  {
    if IsEmptySequence(test.left) then test.comparisons[0].comparator else test.left
  }

  /** `leave_If`: the statement to keep and the changes reported for it. */
  function LeaveIf(original: Stmt, updated: Stmt, filter: LineFilter, description: string): (r: (Stmt, seq<Change>))
    requires original.If? && updated.If?
    ensures r.0.If?
    ensures !InScope(original.pos, filter) ==> r == (original, [])
    ensures !SingleEquality(original.test) ==> r == (original, [])
    ensures |r.1| <= 1
    ensures r.1 != [] <==> InScope(original.pos, filter) && Rewritable(original.test)
    ensures r.1 == [] <==> r.0 == original
    ensures r.1 != [] ==> r.1 == [Change(LineNumber(original.pos.startLine), description)]
    ensures r.1 != [] ==> r.0 == updated.(test := r.0.test)
  {
    if !InScope(original.pos, filter) then (original, [])
    else
      match original.test
      case Comparison(left, comparisons) =>
        if |comparisons| == 1 && (comparisons[0].operator.Equal? || comparisons[0].operator.NotEqual?) then
          var right := comparisons[0].comparator;
          var emptyLeft := IsEmptySequence(left);
          if emptyLeft || IsEmptySequence(right) then
            var kept := if emptyLeft then right else left;
            var change := Change(LineNumber(original.pos.startLine), description);
            if comparisons[0].operator.NotEqual? then
              assert comparisons[0] in comparisons;
              (updated.(test := kept), [change])
            else
              (updated.(test := UnaryOperation(Not, kept)), [change])
          else (original, [])
        else (original, [])
      case _ => (original, [])
  }

  /** `x == E` and `E == x` become `not x`. */
  lemma EqualBecomesNot(original: Stmt, updated: Stmt, filter: LineFilter, description: string)
    requires original.If? && updated.If?
    requires InScope(original.pos, filter) && Rewritable(original.test)
    requires original.test.comparisons[0].operator.Equal?
    ensures LeaveIf(original, updated, filter, description).0
         == updated.(test := UnaryOperation(Not, KeptOperand(original.test)))
  {
  }

  /** `x != E` and `E != x` become the bare `x`. */
  lemma NotEqualBecomesOperand(original: Stmt, updated: Stmt, filter: LineFilter, description: string)
    requires original.If? && updated.If?
    requires InScope(original.pos, filter) && Rewritable(original.test)
    requires original.test.comparisons[0].operator.NotEqual?
    ensures LeaveIf(original, updated, filter, description).0 == updated.(test := KeptOperand(original.test))
  {
  }

  /** Applying the rule to its own output changes nothing more, unless `!=` kept
      an operand that is itself an equality test against an empty literal. */
  lemma RewriteSettles(original: Stmt, updated: Stmt, filter: LineFilter, description: string)
    requires original.If? && updated.If?
    requires SingleEquality(original.test) && original.test.comparisons[0].operator.NotEqual? ==>
               !Rewritable(KeptOperand(original.test))
    ensures var once := LeaveIf(original, updated, filter, description).0;
            LeaveIf(once, once, filter, description) == (once, [])
  {
    var once := LeaveIf(original, updated, filter, description).0;
    if once != original {
      assert once.test == UnaryOperation(Not, KeptOperand(original.test)) || once.test == KeptOperand(original.test);
    }
  }

  /** `if (x == []) != []:` is rewritten twice in a row: first to `if x == []:`,
      then to `if not x:`. */
  lemma NestedComparisonRewritesTwice()
    ensures var p := Position(1, 1);
            var x := Name("x");
            var inner := Comparison(x, [ComparisonTarget(Equal, List([]))]);
            var first := If(Comparison(inner, [ComparisonTarget(NotEqual, List([]))]), [Pass], [], p);
            var once := LeaveIf(first, first, LineFilter([], []), "d").0;
            once == If(inner, [Pass], [], p)
            && LeaveIf(once, once, LineFilter([], []), "d").0 == If(UnaryOperation(Not, x), [Pass], [], p)
  {
  }

  /** `if x == []:` becomes `if not x:`, `if [] != x:` becomes `if x:` and
      `if x == [1]:` is left alone. */
  lemma Examples()
    ensures var p := Position(1, 1);
            var x := Name("x");
            var f := LineFilter([], []);
            var s1 := If(Comparison(x, [ComparisonTarget(Equal, List([]))]), [Pass], [], p);
            var s2 := If(Comparison(List([]), [ComparisonTarget(NotEqual, x)]), [Pass], [], p);
            var s3 := If(Comparison(x, [ComparisonTarget(Equal, List([Integer("1")]))]), [Pass], [], p);
            && LeaveIf(s1, s1, f, "d").0 == If(UnaryOperation(Not, x), [Pass], [], p)
            && LeaveIf(s2, s2, f, "d").0 == If(x, [Pass], [], p)
            && LeaveIf(s3, s3, f, "d") == (s3, [])
  {
  }
}
