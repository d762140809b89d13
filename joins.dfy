/**
 * Joins between tables (dcorm/joins.py): `join` chains a further table
 * onto a join, and compiling a chain writes the tables left to right,
 * each after its join keyword and followed by its `ON` condition when it
 * has one.
 */
module Joins {
  import opened Outcomes
  import opened Values
  import opened Schema
  import opened Nodes
  import opened Compiler
  import Literals

  /** Every join keyword is a binary literal: it renders with a space on each side. */
  lemma JoinKeywordsSpaced(k: JoinType)
    ensures Literals.Render(JoinLiteral(k)) == " " + JoinKeyword(k) + " "
  {
    Literals.BinaryRendersSpaced(JoinKeyword(k));
  }

  /**
   * `join.join(other, typ, on)`: a new join with the receiver on the left.
   * The receiver, a value, is not changed.
   */
  function JoinOnto(self: Node, other: Node, typ: JoinType := Inner, on: Node := NoneObj): (r: Node)
    requires self.JoinNode?
    ensures r.JoinNode? && r.lhs == self && r.kind == typ && r.rhs == other && r.on == on
  {
    JoinNode(self, typ, other, on)
  }

  /** One table joined onto a chain: its kind, the table and its condition (`NoneObj` for none). */
  datatype JoinStep = JoinStep(kind: JoinType, rhs: Node, on: Node)

  predicate StepsKnown(steps: seq<JoinStep>, view: AliasView) {
    forall i :: 0 <= i < |steps| ==> Known(steps[i].rhs, view) && Known(steps[i].on, view)
  }

  /** `first.join(...).join(...)...`: the steps applied left to right, each one nesting the chain so far on its left. */
  function Chain(first: Node, steps: seq<JoinStep>): (r: Node)
    ensures |steps| > 0 ==> r.JoinNode?
    ensures |steps| == 0 ==> r == first
  {
    if |steps| == 0 then first
    else
      var last := steps[|steps| - 1];
      JoinNode(Chain(first, steps[..|steps| - 1]), last.kind, last.rhs, last.on)
  }

  lemma {:induction false} ChainKnown(first: Node, steps: seq<JoinStep>, view: AliasView)
    requires Known(first, view) && StepsKnown(steps, view)
    ensures Known(Chain(first, steps), view)
    decreases |steps|
  {
    if |steps| > 0 {
      ChainKnown(first, steps[..|steps| - 1], view);
    }
  }

  /** What one step writes: its keyword, its table, then `ON` and its condition if it has one. */
  function StepEmission(s: JoinStep, view: AliasView): Emission
    requires Known(s.rhs, view) && Known(s.on, view)
  {
    Then(JoinRightEmission(s.kind, Emit(s.rhs, view)), if s.on.NoneObj? then Empty else ConditionEmission(Emit(s.on, view)))
  }

  /** The steps' output one after another, stopping at the first exception. */
  function StepsEmission(steps: seq<JoinStep>, view: AliasView): Emission
    requires StepsKnown(steps, view)
  {
    if |steps| == 0 then Empty
    else Then(StepsEmission(steps[..|steps| - 1], view), StepEmission(steps[|steps| - 1], view))
  }

  lemma ThenAssoc(a: Emission, b: Emission, c: Emission)
    ensures Then(Then(a, b), c) == Then(a, Then(b, c))
  {
    if a.err.None? && b.err.None? {
      Text.AppendAssoc(a.frags, b.frags, c.frags);
      Text.AppendAssoc(a.vals, b.vals, c.vals);
    }
  }

  lemma ThenEmpty(a: Emission)
    requires a.err.None?
    ensures Then(a, Empty) == a
  {
  }

  /**
   * A chain compiles left-deep: the first table, then each step in the
   * order it was joined, `a k1 b [ON p1] k2 c [ON p2] ...`.
   */
  lemma {:induction false} ChainEmission(first: Node, steps: seq<JoinStep>, view: AliasView)
    requires Known(first, view) && StepsKnown(steps, view)
    ensures Known(Chain(first, steps), view)
    ensures Emit(Chain(first, steps), view) == Then(Emit(first, view), StepsEmission(steps, view))
    decreases |steps|
  {
    ChainKnown(first, steps, view);
    if |steps| == 0 {
      var e := Emit(first, view);
      if e.err.None? {
        ThenEmpty(e);
      }
    } else {
      var prefix := steps[..|steps| - 1];
      ChainEmission(first, prefix, view);
      ChainStep(first, steps, view);
      ThenAssoc(Emit(first, view), StepsEmission(prefix, view), StepEmission(steps[|steps| - 1], view));
    }
  }

  /** The last step's output follows the output of the chain before it. */
  lemma ChainStep(first: Node, steps: seq<JoinStep>, view: AliasView)
    requires |steps| > 0 && Known(first, view) && StepsKnown(steps, view)
    ensures Known(Chain(first, steps[..|steps| - 1]), view) && Known(Chain(first, steps), view)
    ensures Emit(Chain(first, steps), view) == Then(Emit(Chain(first, steps[..|steps| - 1]), view), StepEmission(steps[|steps| - 1], view))
  {
    var prefix := steps[..|steps| - 1];
    var last := steps[|steps| - 1];
    ChainKnown(first, prefix, view);
    ChainKnown(first, steps, view);
    var l := Emit(Chain(first, prefix), view);
    assert Chain(first, steps) == JoinNode(Chain(first, prefix), last.kind, last.rhs, last.on);
    assert Emit(Chain(first, steps), view) == JoinEmission(l, last.kind, Emit(last.rhs, view), if last.on.NoneObj? then None else Some(Emit(last.on, view)));
  }

  /** A join without a condition writes no `ON`: only the left side, the keyword and the right side. */
  lemma WithoutCondition(lhs: Node, kind: JoinType, rhs: Node, view: AliasView)
    requires Known(lhs, view) && Known(rhs, view)
    ensures Emit(JoinNode(lhs, kind, rhs, NoneObj), view)
         == Then(Emit(lhs, view), Then(LiteralEmission(JoinTypeArg(kind)), Emit(rhs, view)))
  {
    var right := JoinRightEmission(kind, Emit(rhs, view));
    assert Emit(JoinNode(lhs, kind, rhs, NoneObj), view) == JoinEmission(Emit(lhs, view), kind, Emit(rhs, view), None);
    if right.err.None? {
      ThenEmpty(right);
    }
  }

  /** With a condition, `ON` and the condition follow the right side. */
  lemma WithCondition(lhs: Node, kind: JoinType, rhs: Node, on: Node, view: AliasView)
    requires Known(lhs, view) && Known(rhs, view) && Known(on, view) && on != NoneObj
    ensures Emit(JoinNode(lhs, kind, rhs, on), view)
         == Then(Emit(lhs, view), Then(LiteralEmission(JoinTypeArg(kind)), Then(Emit(rhs, view), Then(LiteralEmission(LiteralObj(ON)), Emit(on, view)))))
  {
    assert Emit(JoinNode(lhs, kind, rhs, on), view) == JoinEmission(Emit(lhs, view), kind, Emit(rhs, view), Some(Emit(on, view)));
    ThenAssoc(LiteralEmission(JoinTypeArg(kind)), Emit(rhs, view), ConditionEmission(Emit(on, view)));
  }
}
