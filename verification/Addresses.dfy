/** The ids of a readdressed tree, by the place of each node: the prefix, the names
    of the steps that lead to the node, and a word for its own kind. */
module Addresses {
  import opened Options
  import opened Decimals
  import opened Readdressing

  datatype Node =
    | Cond(condition: Condition)
    | Val(value: Value)
    | ScoreTerm(term: Term)
    | Points(points: ConditionTerm)

  /** A step from a node to one that it holds and that readdressing reaches. */
  datatype Step =
    | ToLeft | ToRight | ToChild | ToItem(n: nat) | ToOperand(n: nat) | ToSource
    | ToTerm(n: nat) | ToTermValue | ToPoints(n: nat) | ToPointsCondition

  function Go(node: Node, step: Step): Option<Node> {
    match node
    case Cond(Comparison(_, _, l, r)) =>
      if step == ToLeft then Some(Val(l)) else if step == ToRight then Some(Val(r)) else None
    case Cond(Negation(_, child)) => if step == ToChild then Some(Cond(child)) else None
    case Cond(Leaf(_, _, _)) => None
    case Cond(Group(_, _, _, cs)) => if step.ToItem? && step.n < |cs| then Some(Cond(cs[step.n])) else None
    case Val(Daily(_, _, vs)) => if step.ToOperand? && step.n < |vs| then Some(Val(vs[step.n])) else None
    case Val(CrossSectional(_, _, source)) => if step == ToSource then Some(Val(source)) else None
    case Val(Aggregate(_, _, source)) => if step == ToSource then Some(Val(source)) else None
    case Val(Score(_, _, ts, ks)) =>
      if step.ToTerm? && step.n < |ts| then Some(ScoreTerm(ts[step.n]))
      else if step.ToPoints? && step.n < |ks| then Some(Points(ks[step.n]))
      else None
    case Val(Sourced(_, _, _)) => None
    case Val(Other(_, _)) => None
    case ScoreTerm(t) => if step == ToTermValue then Some(Val(t.value)) else None
    case Points(k) => if step == ToPointsCondition then Some(Cond(k.condition)) else None
  }

  function Follow(node: Node, path: seq<Step>): Option<Node>
    decreases |path|
  {
    if path == [] then Some(node)
    else
      var next := Go(node, path[0]);
      if next.None? then None else Follow(next.value, path[1..])
  }

  /** What a step adds to the prefix; items are counted from 1. */
  function StepName(step: Step): string {
    match step
    case ToLeft => "-left"
    case ToRight => "-right"
    case ToChild => "-child"
    case ToItem(n) => "-" + Digits(n + 1)
    case ToOperand(n) => "-operand-" + Digits(n + 1)
    case ToSource => "-source"
    case ToTerm(n) => "-term-" + Digits(n + 1)
    case ToTermValue => "-value"
    case ToPoints(n) => "-points-" + Digits(n + 1)
    case ToPointsCondition => ""
  }

  function PathName(path: seq<Step>): string {
    if path == [] then "" else StepName(path[0]) + PathName(path[1..])
  }

  /** A condition adds a word for its kind; values and terms add nothing. */
  function KindName(node: Node): string {
    match node
    case Cond(Comparison(_, _, _, _)) => "-condition"
    case Cond(Negation(_, _)) => "-not"
    case Cond(Leaf(kind, _, _)) => if kind == StateEquals then "-state_equals" else "-event_window"
    case Cond(Group(kind, _, _, _)) => if kind == All then "-all" else if kind == Any then "-any" else "-n_of_m"
    case _ => ""
  }

  function IdOf(node: Node): string {
    match node
    case Cond(c) => c.id
    case Val(v) => v.id
    case ScoreTerm(t) => t.id
    case Points(k) => k.id
  }

  /** The copy of a node under a prefix. */
  function Copy(node: Node, p: string): Node {
    match node
    case Cond(c) => Cond(ReaddressCondition(c, p))
    case Val(v) => Val(ReaddressValue(v, p))
    case ScoreTerm(t) => ScoreTerm(Term(p, t.data, ReaddressValue(t.value, Dash(p, "value"))))
    case Points(k) => Points(ConditionTerm(p, k.data, ReaddressCondition(k.condition, p)))
  }

  lemma CopyId(node: Node, p: string)
    ensures IdOf(Copy(node, p)) == p + KindName(node)
  {
    match node
    case Cond(c) => ConditionId(c, p);
    case _ => assert p + "" == p;
  }

  lemma ConditionId(c: Condition, p: string)
    ensures ReaddressCondition(c, p).id == p + KindName(Cond(c))
  {
    var part := match c
      case Comparison(_, _, _, _) => "condition"
      case Negation(_, _) => "not"
      case Leaf(kind, _, _) => LeafText(kind)
      case Group(kind, _, _, _) => GroupText(kind);
    assert Dash(p, part) == p + ("-" + part);
    assert "-" + "condition" == "-condition" && "-" + "not" == "-not" && "-" + "all" == "-all";
    assert "-" + "any" == "-any" && "-" + "n_of_m" == "-n_of_m";
    assert "-" + "state_equals" == "-state_equals" && "-" + "event_window" == "-event_window";
  }

  lemma {:induction false} ChildAt(cs: seq<Condition>, p: string, i: nat)
    ensures |ReaddressChildren(cs, p)| == |cs|
    ensures i < |cs| ==> ReaddressChildren(cs, p)[i] == ReaddressCondition(cs[i], Numbered(p, i + 1))
  {
    if cs != [] {
      ChildAt(cs[..|cs| - 1], p, i);
    }
  }

  lemma {:induction false} OperandAt(vs: seq<Value>, p: string, i: nat)
    ensures |ReaddressOperands(vs, p)| == |vs|
    ensures i < |vs| ==> ReaddressOperands(vs, p)[i] == ReaddressValue(vs[i], Numbered(p, i + 1))
  {
    if vs != [] {
      OperandAt(vs[..|vs| - 1], p, i);
    }
  }

  lemma {:induction false} TermAt(ts: seq<Term>, p: string, i: nat)
    ensures |ReaddressTerms(ts, p)| == |ts|
    ensures i < |ts| ==> ScoreTerm(ReaddressTerms(ts, p)[i]) == Copy(ScoreTerm(ts[i]), Numbered(p, i + 1))
  {
    if ts != [] {
      TermAt(ts[..|ts| - 1], p, i);
    }
  }

  lemma {:induction false} PointsAt(ks: seq<ConditionTerm>, p: string, i: nat)
    ensures |ReaddressConditionTerms(ks, p)| == |ks|
    ensures i < |ks| ==> Points(ReaddressConditionTerms(ks, p)[i]) == Copy(Points(ks[i]), Numbered(p, i + 1))
  {
    if ks != [] {
      PointsAt(ks[..|ks| - 1], p, i);
    }
  }

  lemma Joined(p: string, part: string, n: nat)
    ensures Dash(p, part) == p + ("-" + part)
    ensures Numbered(Dash(p, part), n) == p + (("-" + part + "-") + Digits(n))
    ensures Numbered(p, n) == p + ("-" + Digits(n))
  {
  }

  lemma StepNames(p: string, n: nat)
    ensures Dash(p, "left") == p + StepName(ToLeft) && Dash(p, "right") == p + StepName(ToRight)
    ensures Dash(p, "child") == p + StepName(ToChild) && Dash(p, "source") == p + StepName(ToSource)
    ensures Dash(p, "value") == p + StepName(ToTermValue) && Numbered(p, n + 1) == p + StepName(ToItem(n))
    ensures p == p + StepName(ToPointsCondition)
  {
    Joined(p, "left", n + 1);
    Joined(p, "right", n + 1);
    Joined(p, "child", n + 1);
    Joined(p, "source", n + 1);
    Joined(p, "value", n + 1);
    assert "-" + "left" == "-left" && "-" + "right" == "-right" && "-" + "child" == "-child";
    assert "-" + "source" == "-source" && "-" + "value" == "-value";
  }

  lemma NumberedSteps(p: string, n: nat)
    ensures Numbered(Dash(p, "operand"), n + 1) == p + StepName(ToOperand(n))
    ensures Numbered(Dash(p, "term"), n + 1) == p + StepName(ToTerm(n))
    ensures Numbered(Dash(p, "points"), n + 1) == p + StepName(ToPoints(n))
  {
    Joined(p, "operand", n + 1);
    Joined(p, "term", n + 1);
    Joined(p, "points", n + 1);
    assert "-" + "operand" + "-" == "-operand-" && "-" + "term" + "-" == "-term-";
    assert "-" + "points" + "-" == "-points-";
  }

  /** A step in the copy leads to the copy of what the step leads to. */
  lemma CopyStep(node: Node, p: string, step: Step)
    ensures Go(node, step) == None <==> Go(Copy(node, p), step) == None
    ensures Go(node, step).Some? ==>
              Go(Copy(node, p), step) == Some(Copy(Go(node, step).value, p + StepName(step)))
  {
    if node.Cond? {
      CopyConditionStep(node.condition, p, step);
    } else if node.Val? {
      CopyValueStep(node.value, p, step);
    } else {
      StepNames(p, 0);
    }
  }

  lemma CopyConditionStep(c: Condition, p: string, step: Step)
    ensures Go(Cond(c), step) == None <==> Go(Cond(ReaddressCondition(c, p)), step) == None
    ensures Go(Cond(c), step).Some? ==>
              Go(Cond(ReaddressCondition(c, p)), step) == Some(Copy(Go(Cond(c), step).value, p + StepName(step)))
  {
    StepNames(p, if step.ToItem? then step.n else 0);
    if c.Group? && step.ToItem? {
      ChildAt(c.children, p, step.n);
    } else if c.Group? {
      ChildAt(c.children, p, 0);
    }
  }

  /** The copy is stepped through as the original is, under the prefix of the step. */
  ghost predicate StepsAlike(node: Node, copy: Node, p: string, step: Step) {
    if Go(node, step) == None then Go(copy, step) == None
    else Go(copy, step) == Some(Copy(Go(node, step).value, p + StepName(step)))
  }

  lemma DailySteps(v: Value, p: string, step: Step)
    requires v.Daily?
    ensures StepsAlike(Val(v), Val(ReaddressValue(v, p)), p, step)
  {
    var n := if step.ToOperand? then step.n else 0;
    NumberedSteps(p, n);
    OperandAt(v.operands, Dash(p, "operand"), n);
  }

  lemma TermSteps(v: Value, p: string, step: Step)
    requires v.Score? && step.ToTerm?
    ensures StepsAlike(Val(v), Val(ReaddressValue(v, p)), p, step)
  {
    NumberedSteps(p, step.n);
    TermAt(v.terms, Dash(p, "term"), step.n);
  }

  lemma PointsSteps(v: Value, p: string, step: Step)
    requires v.Score? && step.ToPoints?
    ensures StepsAlike(Val(v), Val(ReaddressValue(v, p)), p, step)
  {
    NumberedSteps(p, step.n);
    PointsAt(v.conditionTerms, Dash(p, "points"), step.n);
  }

  lemma CopyValueStep(v: Value, p: string, step: Step)
    ensures StepsAlike(Val(v), Val(ReaddressValue(v, p)), p, step)
  {
    if v.Daily? {
      DailySteps(v, p, step);
    } else if v.Score? {
      if step.ToTerm? {
        TermSteps(v, p, step);
      } else if step.ToPoints? {
        PointsSteps(v, p, step);
      }
    } else {
      StepNames(p, 0);
    }
  }

  /** Following a path in the copy leads to the copy of the node that it leads to. */
  lemma {:induction false} FollowCopy(node: Node, p: string, path: seq<Step>)
    ensures Follow(node, path) == None <==> Follow(Copy(node, p), path) == None
    ensures Follow(node, path).Some? ==>
              Follow(Copy(node, p), path) == Some(Copy(Follow(node, path).value, p + PathName(path)))
    decreases |path|
  {
    if path == [] {
      assert p + "" == p;
    } else {
      CopyStep(node, p, path[0]);
      if Go(node, path[0]).Some? {
        FollowCopy(Go(node, path[0]).value, p + StepName(path[0]), path[1..]);
        assert p + StepName(path[0]) + PathName(path[1..]) == p + PathName(path);
      }
    }
  }

  /** The address of every node: its id in the copy is the prefix, the names of the
      steps that lead to it, and the word for its kind. */
  lemma AddressOf(node: Node, p: string, path: seq<Step>)
    ensures Follow(node, path) == None <==> Follow(Copy(node, p), path) == None
    ensures Follow(node, path).Some? ==>
              IdOf(Follow(Copy(node, p), path).value) == p + PathName(path) + KindName(Follow(node, path).value)
  {
    FollowCopy(node, p, path);
    if Follow(node, path).Some? {
      CopyId(Follow(node, path).value, p + PathName(path));
    }
  }
}
