/** Giving a copied condition or value tree fresh semantic ids below a prefix. */
module Readdressing {
  import opened Decimals

  datatype GroupKind = All | Any | NOfM

  datatype LeafKind = StateEquals | EventWindow

  /** `data` stands for the fields without ids that readdressing copies. Sourced is
      an event-relative or a clocked value, whose source it copies as it is. */
  datatype Condition =
    | Comparison(id: string, data: string, left: Value, right: Value)
    | Negation(id: string, child: Condition)
    | Leaf(kind: LeafKind, id: string, data: string)
    | Group(groupKind: GroupKind, id: string, data: string, children: seq<Condition>)

  datatype Value =
    | Daily(id: string, data: string, operands: seq<Value>)
    | CrossSectional(id: string, data: string, source: Value)
    | Aggregate(id: string, data: string, source: Value)
    | Score(id: string, data: string, terms: seq<Term>, conditionTerms: seq<ConditionTerm>)
    | Sourced(id: string, data: string, source: Value)
    | Other(id: string, data: string)

  datatype Term = Term(id: string, data: string, value: Value)

  datatype ConditionTerm = ConditionTerm(id: string, data: string, condition: Condition)

  function GroupText(k: GroupKind): string {
    match k case All => "all" case Any => "any" case NOfM => "n_of_m"
  }

  function LeafText(k: LeafKind): string {
    match k case StateEquals => "state_equals" case EventWindow => "event_window"
  }

  /** `${prefix}-${part}`. */
  function Dash(prefix: string, part: string): string {
    prefix + "-" + part
  }

  function Numbered(prefix: string, n: nat): string {
    Dash(prefix, Digits(n))
  }

  // ----- readdressing -----

  function ReaddressCondition(c: Condition, p: string): Condition
    decreases c, 1
  {
    match c
    case Comparison(_, data, l, r) =>
      Comparison(Dash(p, "condition"), data, ReaddressValue(l, Dash(p, "left")), ReaddressValue(r, Dash(p, "right")))
    case Negation(_, child) => Negation(Dash(p, "not"), ReaddressCondition(child, Dash(p, "child")))
    case Leaf(kind, _, data) => Leaf(kind, Dash(p, LeafText(kind)), data)
    case Group(kind, _, data, children) => Group(kind, Dash(p, GroupText(kind)), data, ReaddressChildren(children, p))
  }

  /** The nth child gets the prefix `${p}-${n}`, counted from 1. */
  function ReaddressChildren(cs: seq<Condition>, p: string): seq<Condition>
    decreases cs, 0
  {
    if cs == [] then []
    else
      var n := |cs| - 1;
      ReaddressChildren(cs[..n], p) + [ReaddressCondition(cs[n], Numbered(p, n + 1))]
  }

  function ReaddressValue(v: Value, p: string): Value
    decreases v, 1
  {
    match v
    case Daily(_, data, operands) => Daily(p, data, ReaddressOperands(operands, Dash(p, "operand")))
    case CrossSectional(_, data, source) => CrossSectional(p, data, ReaddressValue(source, Dash(p, "source")))
    case Aggregate(_, data, source) => Aggregate(p, data, ReaddressValue(source, Dash(p, "source")))
    case Score(_, data, terms, conditionTerms) =>
      Score(p, data, ReaddressTerms(terms, Dash(p, "term")), ReaddressConditionTerms(conditionTerms, Dash(p, "points")))
    case Sourced(_, data, source) => Sourced(p, data, source)
    case Other(_, data) => Other(p, data)
  }

  function ReaddressOperands(vs: seq<Value>, p: string): seq<Value>
    decreases vs, 0
  {
    if vs == [] then []
    else
      var n := |vs| - 1;
      ReaddressOperands(vs[..n], p) + [ReaddressValue(vs[n], Numbered(p, n + 1))]
  }

  function ReaddressTerms(ts: seq<Term>, p: string): seq<Term>
    decreases ts, 0
  {
    if ts == [] then []
    else
      var n := |ts| - 1;
      var q := Numbered(p, n + 1);
      ReaddressTerms(ts[..n], p) + [Term(q, ts[n].data, ReaddressValue(ts[n].value, Dash(q, "value")))]
  }

  function ReaddressConditionTerms(ts: seq<ConditionTerm>, p: string): seq<ConditionTerm>
    decreases ts, 0
  {
    if ts == [] then []
    else
      var n := |ts| - 1;
      var q := Numbered(p, n + 1);
      ReaddressConditionTerms(ts[..n], p) + [ConditionTerm(q, ts[n].data, ReaddressCondition(ts[n].condition, q))]
  }

  // ----- the ids that readdressing rewrites -----

  function ConditionRewritten(c: Condition): set<string>
    decreases c, 1
  {
    match c
    case Comparison(id, _, l, r) => {id} + (ValueRewritten(l) + ValueRewritten(r))
    case Negation(id, child) => {id} + ConditionRewritten(child)
    case Leaf(_, id, _) => {id}
    case Group(_, id, _, children) => {id} + ChildrenRewritten(children)
  }

  function ChildrenRewritten(cs: seq<Condition>): set<string>
    decreases cs, 0
  {
    if cs == [] then {} else ChildrenRewritten(cs[..|cs| - 1]) + ConditionRewritten(cs[|cs| - 1])
  }

  function ValueRewritten(v: Value): set<string>
    decreases v, 1
  {
    match v
    case Daily(id, _, operands) => {id} + OperandsRewritten(operands)
    case CrossSectional(id, _, source) => {id} + ValueRewritten(source)
    case Aggregate(id, _, source) => {id} + ValueRewritten(source)
    case Score(id, _, terms, conditionTerms) => {id} + (TermsRewritten(terms) + ConditionTermsRewritten(conditionTerms))
    case Sourced(id, _, _) => {id}
    case Other(id, _) => {id}
  }

  function OperandsRewritten(vs: seq<Value>): set<string>
    decreases vs, 0
  {
    if vs == [] then {} else OperandsRewritten(vs[..|vs| - 1]) + ValueRewritten(vs[|vs| - 1])
  }

  function TermsRewritten(ts: seq<Term>): set<string>
    decreases ts, 0
  {
    if ts == [] then {} else TermsRewritten(ts[..|ts| - 1]) + ({ts[|ts| - 1].id} + ValueRewritten(ts[|ts| - 1].value))
  }

  function ConditionTermsRewritten(ts: seq<ConditionTerm>): set<string>
    decreases ts, 0
  {
    if ts == [] then {}
    else ConditionTermsRewritten(ts[..|ts| - 1]) + ({ts[|ts| - 1].id} + ConditionRewritten(ts[|ts| - 1].condition))
  }

  /** The number of nodes whose id is rewritten. */
  function ConditionSize(c: Condition): nat
    decreases c, 1
  {
    match c
    case Comparison(_, _, l, r) => 1 + ValueSize(l) + ValueSize(r)
    case Negation(_, child) => 1 + ConditionSize(child)
    case Leaf(_, _, _) => 1
    case Group(_, _, _, children) => 1 + ChildrenSize(children)
  }

  function ChildrenSize(cs: seq<Condition>): nat
    decreases cs, 0
  {
    if cs == [] then 0 else ChildrenSize(cs[..|cs| - 1]) + ConditionSize(cs[|cs| - 1])
  }

  function ValueSize(v: Value): nat
    decreases v, 1
  {
    match v
    case Daily(_, _, operands) => 1 + OperandsSize(operands)
    case CrossSectional(_, _, source) => 1 + ValueSize(source)
    case Aggregate(_, _, source) => 1 + ValueSize(source)
    case Score(_, _, terms, conditionTerms) => 1 + TermsSize(terms) + ConditionTermsSize(conditionTerms)
    case Sourced(_, _, _) => 1
    case Other(_, _) => 1
  }

  function OperandsSize(vs: seq<Value>): nat
    decreases vs, 0
  {
    if vs == [] then 0 else OperandsSize(vs[..|vs| - 1]) + ValueSize(vs[|vs| - 1])
  }

  function TermsSize(ts: seq<Term>): nat
    decreases ts, 0
  {
    if ts == [] then 0 else TermsSize(ts[..|ts| - 1]) + 1 + ValueSize(ts[|ts| - 1].value)
  }

  function ConditionTermsSize(ts: seq<ConditionTerm>): nat
    decreases ts, 0
  {
    if ts == [] then 0 else ConditionTermsSize(ts[..|ts| - 1]) + 1 + ConditionSize(ts[|ts| - 1].condition)
  }

  // ----- ids below a prefix -----

  /** x is the prefix itself, or extends it past a dash. */
  predicate Under(prefix: string, x: string) {
    prefix + "-" <= x + "-"
  }

  predicate Below(prefix: string, x: string) {
    Under(prefix, x) && x != prefix
  }

  ghost predicate AllUnder(prefix: string, ids: set<string>) {
    forall x | x in ids :: Under(prefix, x)
  }

  ghost predicate AllBelow(prefix: string, ids: set<string>) {
    forall x | x in ids :: Below(prefix, x)
  }

  lemma PrefixTrans(a: string, b: string, c: string)
    requires a <= b && b <= c
    ensures a <= c
  {
    assert a == c[..|a|];
  }

  /** What lies under `${p}-${part}` lies below p. */
  lemma UnderDash(p: string, part: string, x: string)
    requires Under(Dash(p, part), x)
    ensures Below(p, x)
  {
    var a, b := p + "-", Dash(p, part) + "-";
    assert a == b[..|a|];
    PrefixTrans(a, b, x + "-");
    assert |p| < |Dash(p, part)| <= |x|;
  }

  lemma AllUnderDash(p: string, part: string, ids: set<string>)
    requires AllUnder(Dash(p, part), ids)
    ensures AllBelow(p, ids)
  {
    forall x | x in ids ensures Below(p, x) {
      UnderDash(p, part, x);
    }
  }

  predicate DashFree(s: string) {
    forall i | 0 <= i < |s| :: s[i] != '-'
  }

  /** Nothing lies under two siblings with different dash-free last parts. */
  lemma SiblingsApart(p: string, a: string, b: string, x: string)
    requires DashFree(a) && DashFree(b) && a != b && Under(Dash(p, a), x)
    ensures !Under(Dash(p, b), x)
  {
    if Under(Dash(p, b), x) {
      if |a| <= |b| {
        SamePart(p, a, b, x);
      } else {
        SamePart(p, b, a, x);
      }
    }
  }

  lemma SamePart(p: string, a: string, b: string, x: string)
    requires DashFree(a) && DashFree(b) && |a| <= |b|
    requires Under(Dash(p, a), x) && Under(Dash(p, b), x)
    ensures a == b
  {
    var n, s := |p| + 1, x + "-";
    var u, v := Dash(p, a) + "-", Dash(p, b) + "-";
    assert u == s[..|u|] && v == s[..|v|];
    assert forall i | 0 <= i <= |a| :: (a + "-")[i] == u[n + i] && (b + "-")[i] == v[n + i];
    SameDashFree(a, b);
  }

  lemma SameDashFree(a: string, b: string)
    requires DashFree(a) && DashFree(b) && |a| <= |b|
    requires forall i | 0 <= i <= |a| :: (a + "-")[i] == (b + "-")[i]
    ensures a == b
  {
    assert (b + "-")[|a|] == (a + "-")[|a|] == '-';
    assert |a| == |b|;
    assert forall i | 0 <= i < |a| :: a[i] == (a + "-")[i] && b[i] == (b + "-")[i];
  }

  lemma SetsApart(p: string, a: string, b: string, xs: set<string>, ys: set<string>)
    requires DashFree(a) && DashFree(b) && a != b
    requires AllUnder(Dash(p, a), xs) && AllUnder(Dash(p, b), ys)
    ensures xs !! ys
  {
    forall x | x in xs ensures x !in ys {
      SiblingsApart(p, a, b, x);
    }
  }

  lemma DigitsApart(m: nat, n: nat)
    requires m != n
    ensures Digits(m) != Digits(n) && DashFree(Digits(m)) && DashFree(Digits(n))
  {
    ReadDigitsOfDigits(m);
    ReadDigitsOfDigits(n);
    NoDash(Digits(m));
    NoDash(Digits(n));
  }

  lemma NoDash(s: string)
    requires AllDigits(s)
    ensures DashFree(s)
  {
  }

  /** Every id lies under one of the first n numbered siblings. */
  ghost predicate UnderNumbers(p: string, n: nat, ids: set<string>) {
    forall x | x in ids :: exists i: nat :: 1 <= i <= n && Under(Numbered(p, i), x)
  }

  lemma NumbersBelow(p: string, n: nat, ids: set<string>)
    requires UnderNumbers(p, n, ids)
    ensures AllBelow(p, ids)
  {
    forall x | x in ids ensures Below(p, x) {
      var i: nat :| 1 <= i <= n && Under(Numbered(p, i), x);
      UnderDash(p, Digits(i), x);
    }
  }

  /** One more numbered sibling shares no id with the ones before it. */
  lemma NextNumber(p: string, n: nat, before: set<string>, next: set<string>)
    requires UnderNumbers(p, n, before) && AllUnder(Numbered(p, n + 1), next)
    ensures before !! next && UnderNumbers(p, n + 1, before + next)
  {
    forall x | x in before ensures x !in next {
      var i: nat :| 1 <= i <= n && Under(Numbered(p, i), x);
      DigitsApart(i, n + 1);
      SiblingsApart(p, Digits(i), Digits(n + 1), x);
    }
    forall x | x in before + next ensures exists i: nat :: 1 <= i <= n + 1 && Under(Numbered(p, i), x) {
      if x in before {
        var i: nat :| 1 <= i <= n && Under(Numbered(p, i), x);
      } else {
        assert Under(Numbered(p, n + 1), x);
      }
    }
  }

  lemma UnionSize(a: set<string>, b: set<string>)
    requires a !! b
    ensures |a + b| == |a| + |b|
  {
  }

  lemma WithOwnId(p: string, ids: set<string>)
    requires AllBelow(p, ids)
    ensures |{p} + ids| == 1 + |ids| && AllUnder(p, {p} + ids)
  {
    assert p !in ids;
    UnionSize({p}, ids);
  }

  // ----- rewritten ids are fresh -----

  /** Every rewritten node gets its own id, and all these ids lie below the prefix. */
  lemma {:induction false} ConditionRewrittenFresh(c: Condition, p: string)
    ensures AllBelow(p, ConditionRewritten(ReaddressCondition(c, p)))
    ensures |ConditionRewritten(ReaddressCondition(c, p))| == ConditionSize(c)
    decreases c, 1
  {
    match c
    case Comparison(_, _, l, r) =>
      ValueRewrittenFresh(l, Dash(p, "left"));
      ValueRewrittenFresh(r, Dash(p, "right"));
      ComparisonFresh(p, ValueRewritten(ReaddressValue(l, Dash(p, "left"))),
                      ValueRewritten(ReaddressValue(r, Dash(p, "right"))));
    case Negation(_, child) =>
      ConditionRewrittenFresh(child, Dash(p, "child"));
      NegationFresh(p, ConditionRewritten(ReaddressCondition(child, Dash(p, "child"))));
    case Leaf(kind, _, _) => UnderDash(p, LeafText(kind), Dash(p, LeafText(kind)));
    case Group(kind, _, _, children) =>
      ChildrenFresh(children, p);
      GroupFresh(p, kind, |children|, ChildrenRewritten(ReaddressChildren(children, p)));
  }

  lemma ComparisonFresh(p: string, left: set<string>, right: set<string>)
    requires AllUnder(Dash(p, "left"), left) && AllUnder(Dash(p, "right"), right)
    ensures
      var ids := {Dash(p, "condition")} + (left + right);
      AllBelow(p, ids) && |ids| == 1 + |left| + |right|
  {
    var own := {Dash(p, "condition")};
    PartsDiffer();
    SetsApart(p, "left", "right", left, right);
    SetsApart(p, "condition", "left", own, left);
    SetsApart(p, "condition", "right", own, right);
    UnionSize(left, right);
    UnionSize(own, left + right);
    AllUnderDash(p, "left", left);
    AllUnderDash(p, "right", right);
    AllUnderDash(p, "condition", own);
  }

  lemma PartsDiffer()
    ensures DashFree("left") && DashFree("right") && DashFree("condition") && DashFree("not") && DashFree("child")
    ensures DashFree("term") && DashFree("points")
    ensures "left" != "right" && "condition" != "left" && "condition" != "right" && "not" != "child"
        && "term" != "points"
  {
    assert "left"[0] == 'l' && "right"[0] == 'r' && "condition"[0] == 'c' && "not"[0] == 'n' && "child"[0] == 'c';
    assert "term"[0] == 't' && "points"[0] == 'p';
  }

  lemma NegationFresh(p: string, child: set<string>)
    requires AllBelow(Dash(p, "child"), child)
    ensures
      var ids := {Dash(p, "not")} + child;
      AllBelow(p, ids) && |ids| == 1 + |child|
  {
    var own := {Dash(p, "not")};
    PartsDiffer();
    SetsApart(p, "not", "child", own, child);
    UnionSize(own, child);
    AllUnderDash(p, "child", child);
    AllUnderDash(p, "not", own);
  }

  lemma GroupFresh(p: string, kind: GroupKind, n: nat, children: set<string>)
    requires UnderNumbers(p, n, children)
    ensures
      var ids := {Dash(p, GroupText(kind))} + children;
      AllBelow(p, ids) && |ids| == 1 + |children|
  {
    var own := Dash(p, GroupText(kind));
    GroupTextWord(kind);
    forall x | x in children ensures x != own {
      var i: nat :| 1 <= i <= n && Under(Numbered(p, i), x);
      DigitsApart(i, i + 1);
      assert IsDigit(Digits(i)[0]);
      SiblingsApart(p, Digits(i), GroupText(kind), x);
    }
    UnionSize({own}, children);
    NumbersBelow(p, n, children);
    UnderDash(p, GroupText(kind), own);
  }

  lemma GroupTextWord(kind: GroupKind)
    ensures DashFree(GroupText(kind)) && GroupText(kind) != "" && !IsDigit(GroupText(kind)[0])
  {
  }

  lemma {:induction false} ChildrenFresh(cs: seq<Condition>, p: string)
    ensures UnderNumbers(p, |cs|, ChildrenRewritten(ReaddressChildren(cs, p)))
    ensures |ChildrenRewritten(ReaddressChildren(cs, p))| == ChildrenSize(cs)
    decreases cs, 0
  {
    if cs != [] {
      var n := |cs| - 1;
      ChildrenFresh(cs[..n], p);
      ConditionRewrittenFresh(cs[n], Numbered(p, n + 1));
      var before, next := ReaddressChildren(cs[..n], p), ReaddressCondition(cs[n], Numbered(p, n + 1));
      assert (before + [next])[..|before|] == before;
      NextNumber(p, n, ChildrenRewritten(before), ConditionRewritten(next));
      UnionSize(ChildrenRewritten(before), ConditionRewritten(next));
    }
  }

  lemma {:induction false} ValueRewrittenFresh(v: Value, p: string)
    ensures AllUnder(p, ValueRewritten(ReaddressValue(v, p)))
    ensures |ValueRewritten(ReaddressValue(v, p))| == ValueSize(v)
    decreases v, 1
  {
    match v
    case Daily(_, _, operands) =>
      OperandsFresh(operands, Dash(p, "operand"));
      DailyFresh(p, |operands|, OperandsRewritten(ReaddressOperands(operands, Dash(p, "operand"))));
    case CrossSectional(_, _, source) => SourceFresh(source, p);
    case Aggregate(_, _, source) => SourceFresh(source, p);
    case Score(_, _, _, _) => ScoreValueFresh(v, p);
    case Sourced(_, _, _) =>
    case Other(_, _) =>
  }

  lemma {:induction false} ScoreValueFresh(v: Value, p: string)
    requires v.Score?
    ensures AllUnder(p, ValueRewritten(ReaddressValue(v, p)))
    ensures |ValueRewritten(ReaddressValue(v, p))| == ValueSize(v)
    decreases v, 0
  {
    var q, r := Dash(p, "term"), Dash(p, "points");
    TermsFresh(v.terms, q);
    ConditionTermsFresh(v.conditionTerms, r);
    var ts, cs := TermsRewritten(ReaddressTerms(v.terms, q)),
        ConditionTermsRewritten(ReaddressConditionTerms(v.conditionTerms, r));
    ScoreFresh(p, |v.terms|, ts, |v.conditionTerms|, cs);
    ScoreRewritten(v, p);
  }

  lemma ScoreRewritten(v: Value, p: string)
    requires v.Score?
    ensures ValueRewritten(ReaddressValue(v, p))
         == {p} + (TermsRewritten(ReaddressTerms(v.terms, Dash(p, "term")))
                   + ConditionTermsRewritten(ReaddressConditionTerms(v.conditionTerms, Dash(p, "points"))))
  {
  }

  lemma DailyFresh(p: string, n: nat, ids: set<string>)
    requires UnderNumbers(Dash(p, "operand"), n, ids)
    ensures AllUnder(p, {p} + ids) && |{p} + ids| == 1 + |ids|
  {
    NumbersBelow(Dash(p, "operand"), n, ids);
    AllUnderDash(p, "operand", ids);
    WithOwnId(p, ids);
  }

  lemma SourceFresh(source: Value, p: string)
    ensures
      var ids := ValueRewritten(ReaddressValue(source, Dash(p, "source")));
      |{p} + ids| == 1 + ValueSize(source) && AllUnder(p, {p} + ids)
    decreases source, 2
  {
    var ids := ValueRewritten(ReaddressValue(source, Dash(p, "source")));
    ValueRewrittenFresh(source, Dash(p, "source"));
    AllUnderDash(p, "source", ids);
    WithOwnId(p, ids);
  }

  lemma ScoreFresh(p: string, m: nat, terms: set<string>, n: nat, points: set<string>)
    requires UnderNumbers(Dash(p, "term"), m, terms) && UnderNumbers(Dash(p, "points"), n, points)
    ensures
      var ids := {p} + (terms + points);
      AllUnder(p, ids) && |ids| == 1 + |terms| + |points|
  {
    NumbersBelow(Dash(p, "term"), m, terms);
    NumbersBelow(Dash(p, "points"), n, points);
    PartsDiffer();
    SetsApart(p, "term", "points", terms, points);
    AllUnderDash(p, "term", terms);
    AllUnderDash(p, "points", points);
    UnionSize(terms, points);
    WithOwnId(p, terms + points);
  }

  lemma {:induction false} OperandsFresh(vs: seq<Value>, p: string)
    ensures UnderNumbers(p, |vs|, OperandsRewritten(ReaddressOperands(vs, p)))
    ensures |OperandsRewritten(ReaddressOperands(vs, p))| == OperandsSize(vs)
    decreases vs, 0
  {
    if vs != [] {
      var n := |vs| - 1;
      OperandsFresh(vs[..n], p);
      ValueRewrittenFresh(vs[n], Numbered(p, n + 1));
      var before, next := ReaddressOperands(vs[..n], p), ReaddressValue(vs[n], Numbered(p, n + 1));
      assert (before + [next])[..|before|] == before;
      NextNumber(p, n, OperandsRewritten(before), ValueRewritten(next));
      UnionSize(OperandsRewritten(before), ValueRewritten(next));
    }
  }

  lemma {:induction false} TermsFresh(ts: seq<Term>, p: string)
    ensures UnderNumbers(p, |ts|, TermsRewritten(ReaddressTerms(ts, p)))
    ensures |TermsRewritten(ReaddressTerms(ts, p))| == TermsSize(ts)
    decreases ts, 0
  {
    if ts != [] {
      var n := |ts| - 1;
      var q := Numbered(p, n + 1);
      TermsFresh(ts[..n], p);
      ValueRewrittenFresh(ts[n].value, Dash(q, "value"));
      var before, next := ReaddressTerms(ts[..n], p), ReaddressValue(ts[n].value, Dash(q, "value"));
      assert (before + [Term(q, ts[n].data, next)])[..|before|] == before;
      AllUnderDash(q, "value", ValueRewritten(next));
      WithOwnId(q, ValueRewritten(next));
      NextNumber(p, n, TermsRewritten(before), {q} + ValueRewritten(next));
      UnionSize(TermsRewritten(before), {q} + ValueRewritten(next));
    }
  }

  lemma {:induction false} ConditionTermsFresh(ts: seq<ConditionTerm>, p: string)
    ensures UnderNumbers(p, |ts|, ConditionTermsRewritten(ReaddressConditionTerms(ts, p)))
    ensures |ConditionTermsRewritten(ReaddressConditionTerms(ts, p))| == ConditionTermsSize(ts)
    decreases ts, 0
  {
    if ts != [] {
      var n := |ts| - 1;
      var q := Numbered(p, n + 1);
      ConditionTermsFresh(ts[..n], p);
      ConditionRewrittenFresh(ts[n].condition, q);
      var before, next := ReaddressConditionTerms(ts[..n], p), ReaddressCondition(ts[n].condition, q);
      assert (before + [ConditionTerm(q, ts[n].data, next)])[..|before|] == before;
      WithOwnId(q, ConditionRewritten(next));
      NextNumber(p, n, ConditionTermsRewritten(before), {q} + ConditionRewritten(next));
      UnionSize(ConditionTermsRewritten(before), {q} + ConditionRewritten(next));
    }
  }

  // ----- the tree itself is kept -----

  /** Equal but for the ids that readdressing rewrites. */
  ghost predicate SameCondition(a: Condition, b: Condition) {
    match a
    case Comparison(_, data, l, r) => b.Comparison? && b.data == data && SameValue(l, b.left) && SameValue(r, b.right)
    case Negation(_, child) => b.Negation? && SameCondition(child, b.child)
    case Leaf(kind, _, data) => b.Leaf? && b.kind == kind && b.data == data
    case Group(kind, _, data, children) =>
      && b.Group? && b.groupKind == kind && b.data == data && |b.children| == |children|
      && forall i | 0 <= i < |children| :: SameCondition(children[i], b.children[i])
  }

  ghost predicate SameValue(a: Value, b: Value) {
    match a
    case Daily(_, data, operands) =>
      && b.Daily? && b.data == data && |b.operands| == |operands|
      && forall i | 0 <= i < |operands| :: SameValue(operands[i], b.operands[i])
    case CrossSectional(_, data, source) => b.CrossSectional? && b.data == data && SameValue(source, b.source)
    case Aggregate(_, data, source) => b.Aggregate? && b.data == data && SameValue(source, b.source)
    case Score(_, data, terms, conditionTerms) =>
      && b.Score? && b.data == data && |b.terms| == |terms| && |b.conditionTerms| == |conditionTerms|
      && (forall i | 0 <= i < |terms| ::
            terms[i].data == b.terms[i].data && SameValue(terms[i].value, b.terms[i].value))
      && (forall i | 0 <= i < |conditionTerms| ::
            conditionTerms[i].data == b.conditionTerms[i].data
            && SameCondition(conditionTerms[i].condition, b.conditionTerms[i].condition))
    case Sourced(_, data, source) => b.Sourced? && b.data == data && b.source == source
    case Other(_, data) => b.Other? && b.data == data
  }

  lemma {:induction false} ChildrenAt(cs: seq<Condition>, p: string)
    ensures |ReaddressChildren(cs, p)| == |cs|
    ensures forall i | 0 <= i < |cs| :: ReaddressChildren(cs, p)[i] == ReaddressCondition(cs[i], Numbered(p, i + 1))
  {
    if cs != [] {
      ChildrenAt(cs[..|cs| - 1], p);
    }
  }

  lemma {:induction false} OperandsAt(vs: seq<Value>, p: string)
    ensures |ReaddressOperands(vs, p)| == |vs|
    ensures forall i | 0 <= i < |vs| :: ReaddressOperands(vs, p)[i] == ReaddressValue(vs[i], Numbered(p, i + 1))
  {
    if vs != [] {
      OperandsAt(vs[..|vs| - 1], p);
    }
  }

  lemma {:induction false} TermsAt(ts: seq<Term>, p: string)
    ensures |ReaddressTerms(ts, p)| == |ts|
    ensures forall i | 0 <= i < |ts| ::
              ReaddressTerms(ts, p)[i]
              == Term(Numbered(p, i + 1), ts[i].data, ReaddressValue(ts[i].value, Dash(Numbered(p, i + 1), "value")))
  {
    if ts != [] {
      TermsAt(ts[..|ts| - 1], p);
    }
  }

  lemma {:induction false} ConditionTermsAt(ts: seq<ConditionTerm>, p: string)
    ensures |ReaddressConditionTerms(ts, p)| == |ts|
    ensures forall i | 0 <= i < |ts| ::
              ReaddressConditionTerms(ts, p)[i]
              == ConditionTerm(Numbered(p, i + 1), ts[i].data, ReaddressCondition(ts[i].condition, Numbered(p, i + 1)))
  {
    if ts != [] {
      ConditionTermsAt(ts[..|ts| - 1], p);
    }
  }

  /** Readdressing changes nothing but the ids it rewrites. */
  lemma {:induction false} ConditionKept(c: Condition, p: string)
    ensures SameCondition(c, ReaddressCondition(c, p))
    decreases c
  {
    match c
    case Comparison(_, _, l, r) =>
      ValueKept(l, Dash(p, "left"));
      ValueKept(r, Dash(p, "right"));
    case Negation(_, child) => ConditionKept(child, Dash(p, "child"));
    case Leaf(_, _, _) =>
    case Group(_, _, _, children) =>
      ChildrenAt(children, p);
      forall i | 0 <= i < |children| ensures SameCondition(children[i], ReaddressChildren(children, p)[i]) {
        ConditionKept(children[i], Numbered(p, i + 1));
      }
  }

  lemma {:induction false} ValueKept(v: Value, p: string)
    ensures SameValue(v, ReaddressValue(v, p))
    decreases v
  {
    match v
    case Daily(_, _, operands) =>
      var q := Dash(p, "operand");
      OperandsAt(operands, q);
      forall i | 0 <= i < |operands| ensures SameValue(operands[i], ReaddressOperands(operands, q)[i]) {
        ValueKept(operands[i], Numbered(q, i + 1));
      }
    case CrossSectional(_, _, source) => ValueKept(source, Dash(p, "source"));
    case Aggregate(_, _, source) => ValueKept(source, Dash(p, "source"));
    case Score(_, _, terms, conditionTerms) =>
      var q, r := Dash(p, "term"), Dash(p, "points");
      TermsAt(terms, q);
      ConditionTermsAt(conditionTerms, r);
      forall i | 0 <= i < |terms| ensures SameValue(terms[i].value, ReaddressTerms(terms, q)[i].value) {
        ValueKept(terms[i].value, Dash(Numbered(q, i + 1), "value"));
      }
      forall i | 0 <= i < |conditionTerms|
        ensures SameCondition(conditionTerms[i].condition, ReaddressConditionTerms(conditionTerms, r)[i].condition)
      {
        ConditionKept(conditionTerms[i].condition, Numbered(r, i + 1));
      }
    case Sourced(_, _, _) =>
    case Other(_, _) =>
  }

  /** The copy depends on the prefix and on what is not rewritten only. */
  lemma {:induction false} ConditionDetermined(a: Condition, b: Condition, p: string)
    requires SameCondition(a, b)
    ensures ReaddressCondition(a, p) == ReaddressCondition(b, p)
    decreases a
  {
    match a
    case Comparison(_, _, l, r) =>
      ValueDetermined(l, b.left, Dash(p, "left"));
      ValueDetermined(r, b.right, Dash(p, "right"));
    case Negation(_, child) => ConditionDetermined(child, b.child, Dash(p, "child"));
    case Leaf(_, _, _) =>
    case Group(_, _, _, children) =>
      ChildrenAt(children, p);
      ChildrenAt(b.children, p);
      forall i | 0 <= i < |children| ensures ReaddressChildren(children, p)[i] == ReaddressChildren(b.children, p)[i] {
        ConditionDetermined(children[i], b.children[i], Numbered(p, i + 1));
      }
  }

  lemma {:induction false} ValueDetermined(a: Value, b: Value, p: string)
    requires SameValue(a, b)
    ensures ReaddressValue(a, p) == ReaddressValue(b, p)
    decreases a
  {
    match a
    case Daily(_, _, operands) =>
      var q := Dash(p, "operand");
      OperandsAt(operands, q);
      OperandsAt(b.operands, q);
      forall i | 0 <= i < |operands| ensures ReaddressOperands(operands, q)[i] == ReaddressOperands(b.operands, q)[i] {
        ValueDetermined(operands[i], b.operands[i], Numbered(q, i + 1));
      }
    case CrossSectional(_, _, source) => ValueDetermined(source, b.source, Dash(p, "source"));
    case Aggregate(_, _, source) => ValueDetermined(source, b.source, Dash(p, "source"));
    case Score(_, _, terms, conditionTerms) =>
      TermsDetermined(terms, b.terms, Dash(p, "term"), a);
      ConditionTermsDetermined(conditionTerms, b.conditionTerms, Dash(p, "points"), a);
    case Sourced(_, _, _) =>
    case Other(_, _) =>
  }

  lemma {:induction false} TermsDetermined(xs: seq<Term>, ys: seq<Term>, q: string, within: Value)
    requires within.Score? && within.terms == xs && |xs| == |ys|
    requires forall i | 0 <= i < |xs| :: xs[i].data == ys[i].data && SameValue(xs[i].value, ys[i].value)
    ensures ReaddressTerms(xs, q) == ReaddressTerms(ys, q)
    decreases within, 0
  {
    TermsAt(xs, q);
    TermsAt(ys, q);
    forall i | 0 <= i < |xs| ensures ReaddressTerms(xs, q)[i] == ReaddressTerms(ys, q)[i] {
      ValueDetermined(xs[i].value, ys[i].value, Dash(Numbered(q, i + 1), "value"));
    }
  }

  lemma {:induction false} ConditionTermsDetermined(xs: seq<ConditionTerm>, ys: seq<ConditionTerm>, q: string,
                                                    within: Value)
    requires within.Score? && within.conditionTerms == xs && |xs| == |ys|
    requires forall i | 0 <= i < |xs| :: xs[i].data == ys[i].data && SameCondition(xs[i].condition, ys[i].condition)
    ensures ReaddressConditionTerms(xs, q) == ReaddressConditionTerms(ys, q)
    decreases within, 0
  {
    ConditionTermsAt(xs, q);
    ConditionTermsAt(ys, q);
    forall i | 0 <= i < |xs| ensures ReaddressConditionTerms(xs, q)[i] == ReaddressConditionTerms(ys, q)[i] {
      ConditionDetermined(xs[i].condition, ys[i].condition, Numbered(q, i + 1));
    }
  }

  /** Two trees that are the same as a third, but for rewritten ids, are so as each other. */
  lemma {:induction false} SameConditionVia(a: Condition, b: Condition, c: Condition)
    requires SameCondition(a, c) && SameCondition(b, c)
    ensures SameCondition(a, b)
    decreases a
  {
    match a
    case Comparison(_, _, l, r) =>
      SameValueVia(l, b.left, c.left);
      SameValueVia(r, b.right, c.right);
    case Negation(_, child) => SameConditionVia(child, b.child, c.child);
    case Leaf(_, _, _) =>
    case Group(_, _, _, children) =>
      forall i | 0 <= i < |children| ensures SameCondition(children[i], b.children[i]) {
        SameConditionVia(children[i], b.children[i], c.children[i]);
      }
  }

  lemma {:induction false} SameValueVia(a: Value, b: Value, c: Value)
    requires SameValue(a, c) && SameValue(b, c)
    ensures SameValue(a, b)
    decreases a
  {
    match a
    case Daily(_, _, operands) =>
      forall i | 0 <= i < |operands| ensures SameValue(operands[i], b.operands[i]) {
        SameValueVia(operands[i], b.operands[i], c.operands[i]);
      }
    case CrossSectional(_, _, source) => SameValueVia(source, b.source, c.source);
    case Aggregate(_, _, source) => SameValueVia(source, b.source, c.source);
    case Score(_, _, terms, conditionTerms) =>
      forall i | 0 <= i < |terms| ensures SameValue(terms[i].value, b.terms[i].value) {
        SameValueVia(terms[i].value, b.terms[i].value, c.terms[i].value);
      }
      forall i | 0 <= i < |conditionTerms|
        ensures SameCondition(conditionTerms[i].condition, b.conditionTerms[i].condition)
      {
        SameConditionVia(conditionTerms[i].condition, b.conditionTerms[i].condition, c.conditionTerms[i].condition);
      }
    case Sourced(_, _, _) =>
    case Other(_, _) =>
  }

  /** Two trees have the same copy exactly when they are equal but for the ids that
      readdressing rewrites; the ids within sourced values are not among them. */
  lemma SameCopyIff(a: Condition, b: Condition, v: Value, w: Value, p: string)
    ensures ReaddressCondition(a, p) == ReaddressCondition(b, p) <==> SameCondition(a, b)
    ensures ReaddressValue(v, p) == ReaddressValue(w, p) <==> SameValue(v, w)
  {
    ConditionKept(a, p);
    ConditionKept(b, p);
    ValueKept(v, p);
    ValueKept(w, p);
    if SameCondition(a, b) {
      ConditionDetermined(a, b, p);
    } else if ReaddressCondition(a, p) == ReaddressCondition(b, p) {
      SameConditionVia(a, b, ReaddressCondition(b, p));
    }
    if SameValue(v, w) {
      ValueDetermined(v, w, p);
    } else if ReaddressValue(v, p) == ReaddressValue(w, p) {
      SameValueVia(v, w, ReaddressValue(w, p));
    }
  }

  /** Readdressing again below the same prefix changes nothing. */
  lemma ReaddressTwice(c: Condition, v: Value, p: string, q: string)
    ensures ReaddressCondition(ReaddressCondition(c, q), p) == ReaddressCondition(c, p)
    ensures ReaddressValue(ReaddressValue(v, q), p) == ReaddressValue(v, p)
  {
    ConditionKept(c, q);
    ConditionDetermined(c, ReaddressCondition(c, q), p);
    ValueKept(v, q);
    ValueDetermined(v, ReaddressValue(v, q), p);
  }

  // ----- all ids -----

  /** Every id of the tree, with its multiplicity. */
  function ConditionIds(c: Condition): multiset<string>
    decreases c, 1
  {
    match c
    case Comparison(id, _, l, r) => multiset{id} + (ValueIds(l) + ValueIds(r))
    case Negation(id, child) => multiset{id} + ConditionIds(child)
    case Leaf(_, id, _) => multiset{id}
    case Group(_, id, _, children) => multiset{id} + ChildrenIds(children)
  }

  function ChildrenIds(cs: seq<Condition>): multiset<string>
    decreases cs, 0
  {
    if cs == [] then multiset{} else ChildrenIds(cs[..|cs| - 1]) + ConditionIds(cs[|cs| - 1])
  }

  function ValueIds(v: Value): multiset<string>
    decreases v, 1
  {
    match v
    case Daily(id, _, operands) => multiset{id} + OperandsIds(operands)
    case CrossSectional(id, _, source) => multiset{id} + ValueIds(source)
    case Aggregate(id, _, source) => multiset{id} + ValueIds(source)
    case Score(id, _, terms, conditionTerms) => multiset{id} + (TermsIds(terms) + ConditionTermsIds(conditionTerms))
    case Sourced(id, _, source) => multiset{id} + ValueIds(source)
    case Other(id, _) => multiset{id}
  }

  function OperandsIds(vs: seq<Value>): multiset<string>
    decreases vs, 0
  {
    if vs == [] then multiset{} else OperandsIds(vs[..|vs| - 1]) + ValueIds(vs[|vs| - 1])
  }

  function TermsIds(ts: seq<Term>): multiset<string>
    decreases ts, 0
  {
    if ts == [] then multiset{}
    else TermsIds(ts[..|ts| - 1]) + (multiset{ts[|ts| - 1].id} + ValueIds(ts[|ts| - 1].value))
  }

  function ConditionTermsIds(ts: seq<ConditionTerm>): multiset<string>
    decreases ts, 0
  {
    if ts == [] then multiset{}
    else ConditionTermsIds(ts[..|ts| - 1]) + (multiset{ts[|ts| - 1].id} + ConditionIds(ts[|ts| - 1].condition))
  }

  /** The ids within sourced values: the ones that readdressing copies. */
  function ConditionRetained(c: Condition): multiset<string>
    decreases c, 1
  {
    match c
    case Comparison(_, _, l, r) => ValueRetained(l) + ValueRetained(r)
    case Negation(_, child) => ConditionRetained(child)
    case Leaf(_, _, _) => multiset{}
    case Group(_, _, _, children) => ChildrenRetained(children)
  }

  function ChildrenRetained(cs: seq<Condition>): multiset<string>
    decreases cs, 0
  {
    if cs == [] then multiset{} else ChildrenRetained(cs[..|cs| - 1]) + ConditionRetained(cs[|cs| - 1])
  }

  function ValueRetained(v: Value): multiset<string>
    decreases v, 1
  {
    match v
    case Daily(_, _, operands) => OperandsRetained(operands)
    case CrossSectional(_, _, source) => ValueRetained(source)
    case Aggregate(_, _, source) => ValueRetained(source)
    case Score(_, _, terms, conditionTerms) => TermsRetained(terms) + ConditionTermsRetained(conditionTerms)
    case Sourced(_, _, source) => ValueIds(source)
    case Other(_, _) => multiset{}
  }

  function OperandsRetained(vs: seq<Value>): multiset<string>
    decreases vs, 0
  {
    if vs == [] then multiset{} else OperandsRetained(vs[..|vs| - 1]) + ValueRetained(vs[|vs| - 1])
  }

  function TermsRetained(ts: seq<Term>): multiset<string>
    decreases ts, 0
  {
    if ts == [] then multiset{} else TermsRetained(ts[..|ts| - 1]) + ValueRetained(ts[|ts| - 1].value)
  }

  function ConditionTermsRetained(ts: seq<ConditionTerm>): multiset<string>
    decreases ts, 0
  {
    if ts == [] then multiset{}
    else ConditionTermsRetained(ts[..|ts| - 1]) + ConditionRetained(ts[|ts| - 1].condition)
  }

  // ----- rewritten and retained ids are all ids -----

  /** Where the rewritten nodes have as many ids as they are, all ids are theirs,
      once each, and the retained ones. */
  ghost predicate Accounts(ids: multiset<string>, rewritten: set<string>, size: nat, retained: multiset<string>) {
    |rewritten| <= size && (|rewritten| == size ==> ids == multiset(rewritten) + retained)
  }

  lemma OwnAccounts(id: string)
    ensures Accounts(multiset{id}, {id}, 1, multiset{})
  {
    assert multiset({id}) == multiset{id};
  }

  lemma UnionAccounts(i: multiset<string>, a: set<string>, m: nat, k: multiset<string>,
                      j: multiset<string>, b: set<string>, n: nat, l: multiset<string>)
    requires Accounts(i, a, m, k) && Accounts(j, b, n, l)
    ensures Accounts(i + j, a + b, m + n, k + l)
  {
    assert |a + b| + |a * b| == |a| + |b|;
    if |a + b| == m + n {
      assert a * b == {};
      forall x ensures multiset(a + b)[x] == multiset(a)[x] + multiset(b)[x] {
        assert x !in a * b;
      }
    }
  }

  lemma NothingAccounts()
    ensures Accounts(multiset{}, {}, 0, multiset{})
  {
    var none: set<string> := {};
    assert multiset(none) == multiset{};
  }

  /** A node of its own id above parts that are accounted for. */
  lemma NodeAccounts(id: string, i: multiset<string>, a: set<string>, m: nat, k: multiset<string>)
    requires Accounts(i, a, m, k)
    ensures Accounts(multiset{id} + i, {id} + a, 1 + m, k)
  {
    OwnAccounts(id);
    UnionAccounts(multiset{id}, {id}, 1, multiset{}, i, a, m, k);
    assert multiset{} + k == k;
  }

  lemma {:induction false} ConditionAccounts(c: Condition)
    ensures Accounts(ConditionIds(c), ConditionRewritten(c), ConditionSize(c), ConditionRetained(c))
    decreases c, 1
  {
    match c
    case Comparison(id, _, l, r) =>
      ValueAccounts(l);
      ValueAccounts(r);
      UnionAccounts(ValueIds(l), ValueRewritten(l), ValueSize(l), ValueRetained(l),
                    ValueIds(r), ValueRewritten(r), ValueSize(r), ValueRetained(r));
      NodeAccounts(id, ValueIds(l) + ValueIds(r), ValueRewritten(l) + ValueRewritten(r), ValueSize(l) + ValueSize(r),
                   ValueRetained(l) + ValueRetained(r));
    case Negation(id, child) =>
      ConditionAccounts(child);
      NodeAccounts(id, ConditionIds(child), ConditionRewritten(child), ConditionSize(child), ConditionRetained(child));
    case Leaf(_, id, _) => OwnAccounts(id);
    case Group(_, id, _, children) =>
      ChildrenAccounts(children);
      NodeAccounts(id, ChildrenIds(children), ChildrenRewritten(children), ChildrenSize(children),
                   ChildrenRetained(children));
  }

  lemma {:induction false} ChildrenAccounts(cs: seq<Condition>)
    ensures Accounts(ChildrenIds(cs), ChildrenRewritten(cs), ChildrenSize(cs), ChildrenRetained(cs))
    decreases cs, 0
  {
    if cs == [] {
      NothingAccounts();
    } else {
      var init, last := cs[..|cs| - 1], cs[|cs| - 1];
      ChildrenAccounts(init);
      ConditionAccounts(last);
      UnionAccounts(ChildrenIds(init), ChildrenRewritten(init), ChildrenSize(init), ChildrenRetained(init),
                    ConditionIds(last), ConditionRewritten(last), ConditionSize(last), ConditionRetained(last));
    }
  }

  lemma {:induction false} ValueAccounts(v: Value)
    ensures Accounts(ValueIds(v), ValueRewritten(v), ValueSize(v), ValueRetained(v))
    decreases v, 1
  {
    match v
    case Daily(id, _, operands) =>
      OperandsAccounts(operands);
      NodeAccounts(id, OperandsIds(operands), OperandsRewritten(operands), OperandsSize(operands),
                   OperandsRetained(operands));
    case CrossSectional(id, _, source) =>
      ValueAccounts(source);
      NodeAccounts(id, ValueIds(source), ValueRewritten(source), ValueSize(source), ValueRetained(source));
    case Aggregate(id, _, source) =>
      ValueAccounts(source);
      NodeAccounts(id, ValueIds(source), ValueRewritten(source), ValueSize(source), ValueRetained(source));
    case Score(id, _, terms, conditionTerms) => ScoreAccounts(v);
    case Sourced(id, _, source) => assert multiset({id}) == multiset{id};
    case Other(id, _) => OwnAccounts(id);
  }

  lemma {:induction false} ScoreAccounts(v: Value)
    requires v.Score?
    ensures Accounts(ValueIds(v), ValueRewritten(v), ValueSize(v), ValueRetained(v))
    decreases v, 0
  {
    var ts, cs := v.terms, v.conditionTerms;
    TermsAccounts(ts);
    ConditionTermsAccounts(cs);
    UnionAccounts(TermsIds(ts), TermsRewritten(ts), TermsSize(ts), TermsRetained(ts),
                  ConditionTermsIds(cs), ConditionTermsRewritten(cs), ConditionTermsSize(cs),
                      ConditionTermsRetained(cs));
    NodeAccounts(v.id, TermsIds(ts) + ConditionTermsIds(cs), TermsRewritten(ts) + ConditionTermsRewritten(cs),
                 TermsSize(ts) + ConditionTermsSize(cs), TermsRetained(ts) + ConditionTermsRetained(cs));
  }

  lemma {:induction false} OperandsAccounts(vs: seq<Value>)
    ensures Accounts(OperandsIds(vs), OperandsRewritten(vs), OperandsSize(vs), OperandsRetained(vs))
    decreases vs, 0
  {
    if vs == [] {
      NothingAccounts();
    } else {
      var init, last := vs[..|vs| - 1], vs[|vs| - 1];
      OperandsAccounts(init);
      ValueAccounts(last);
      UnionAccounts(OperandsIds(init), OperandsRewritten(init), OperandsSize(init), OperandsRetained(init),
                    ValueIds(last), ValueRewritten(last), ValueSize(last), ValueRetained(last));
    }
  }

  lemma {:induction false} TermsAccounts(ts: seq<Term>)
    ensures Accounts(TermsIds(ts), TermsRewritten(ts), TermsSize(ts), TermsRetained(ts))
    decreases ts, 0
  {
    if ts == [] {
      NothingAccounts();
    } else {
      var init, last := ts[..|ts| - 1], ts[|ts| - 1];
      var v := last.value;
      TermsAccounts(init);
      ValueAccounts(v);
      NodeAccounts(last.id, ValueIds(v), ValueRewritten(v), ValueSize(v), ValueRetained(v));
      UnionAccounts(TermsIds(init), TermsRewritten(init), TermsSize(init), TermsRetained(init),
                    multiset{last.id} + ValueIds(v), {last.id} + ValueRewritten(v), 1 + ValueSize(v), ValueRetained(v));
    }
  }

  lemma {:induction false} ConditionTermsAccounts(ts: seq<ConditionTerm>)
    ensures Accounts(ConditionTermsIds(ts), ConditionTermsRewritten(ts), ConditionTermsSize(ts),
                     ConditionTermsRetained(ts))
    decreases ts, 0
  {
    if ts == [] {
      NothingAccounts();
    } else {
      var init, last := ts[..|ts| - 1], ts[|ts| - 1];
      var c := last.condition;
      ConditionTermsAccounts(init);
      ConditionAccounts(c);
      NodeAccounts(last.id, ConditionIds(c), ConditionRewritten(c), ConditionSize(c), ConditionRetained(c));
      UnionAccounts(ConditionTermsIds(init), ConditionTermsRewritten(init), ConditionTermsSize(init),
                    ConditionTermsRetained(init), multiset{last.id} + ConditionIds(c),
                        {last.id} + ConditionRewritten(c),
                    1 + ConditionSize(c), ConditionRetained(c));
    }
  }

  // ----- retained ids and sizes are kept -----

  predicate LikeCondition(a: Condition, b: Condition) {
    ConditionRetained(a) == ConditionRetained(b) && ConditionSize(a) == ConditionSize(b)
  }

  predicate LikeValue(a: Value, b: Value) {
    ValueRetained(a) == ValueRetained(b) && ValueSize(a) == ValueSize(b)
  }

  lemma {:induction false} SameConditionAlike(a: Condition, b: Condition)
    requires SameCondition(a, b)
    ensures LikeCondition(a, b)
    decreases a
  {
    match a
    case Comparison(_, _, l, r) =>
      SameValueAlike(l, b.left);
      SameValueAlike(r, b.right);
    case Negation(_, child) => SameConditionAlike(child, b.child);
    case Leaf(_, _, _) =>
    case Group(_, _, _, children) =>
      forall i | 0 <= i < |children| ensures LikeCondition(children[i], b.children[i]) {
        SameConditionAlike(children[i], b.children[i]);
      }
      ChildrenAlike(children, b.children);
  }

  lemma {:induction false} ChildrenAlike(xs: seq<Condition>, ys: seq<Condition>)
    requires |xs| == |ys| && forall i | 0 <= i < |xs| :: LikeCondition(xs[i], ys[i])
    ensures ChildrenRetained(xs) == ChildrenRetained(ys) && ChildrenSize(xs) == ChildrenSize(ys)
  {
    if xs != [] {
      ChildrenAlike(xs[..|xs| - 1], ys[..|ys| - 1]);
    }
  }

  lemma {:induction false} SameValueAlike(a: Value, b: Value)
    requires SameValue(a, b)
    ensures LikeValue(a, b)
    decreases a
  {
    match a
    case Daily(_, _, operands) =>
      forall i | 0 <= i < |operands| ensures LikeValue(operands[i], b.operands[i]) {
        SameValueAlike(operands[i], b.operands[i]);
      }
      OperandsAlike(operands, b.operands);
    case CrossSectional(_, _, source) => SameValueAlike(source, b.source);
    case Aggregate(_, _, source) => SameValueAlike(source, b.source);
    case Score(_, _, terms, conditionTerms) =>
      forall i | 0 <= i < |terms| ensures LikeValue(terms[i].value, b.terms[i].value) {
        SameValueAlike(terms[i].value, b.terms[i].value);
      }
      forall i | 0 <= i < |conditionTerms|
        ensures LikeCondition(conditionTerms[i].condition, b.conditionTerms[i].condition)
      {
        SameConditionAlike(conditionTerms[i].condition, b.conditionTerms[i].condition);
      }
      TermsAlike(terms, b.terms);
      ConditionTermsAlike(conditionTerms, b.conditionTerms);
    case Sourced(_, _, _) =>
    case Other(_, _) =>
  }

  lemma {:induction false} OperandsAlike(xs: seq<Value>, ys: seq<Value>)
    requires |xs| == |ys| && forall i | 0 <= i < |xs| :: LikeValue(xs[i], ys[i])
    ensures OperandsRetained(xs) == OperandsRetained(ys) && OperandsSize(xs) == OperandsSize(ys)
  {
    if xs != [] {
      OperandsAlike(xs[..|xs| - 1], ys[..|ys| - 1]);
    }
  }

  lemma {:induction false} TermsAlike(xs: seq<Term>, ys: seq<Term>)
    requires |xs| == |ys| && forall i | 0 <= i < |xs| :: LikeValue(xs[i].value, ys[i].value)
    ensures TermsRetained(xs) == TermsRetained(ys) && TermsSize(xs) == TermsSize(ys)
  {
    if xs != [] {
      TermsAlike(xs[..|xs| - 1], ys[..|ys| - 1]);
    }
  }

  lemma {:induction false} ConditionTermsAlike(xs: seq<ConditionTerm>, ys: seq<ConditionTerm>)
    requires |xs| == |ys|
    requires forall i | 0 <= i < |xs| :: LikeCondition(xs[i].condition, ys[i].condition)
    ensures ConditionTermsRetained(xs) == ConditionTermsRetained(ys) && ConditionTermsSize(xs) == ConditionTermsSize(ys)
  {
    if xs != [] {
      ConditionTermsAlike(xs[..|xs| - 1], ys[..|ys| - 1]);
    }
  }

  // ----- when a copy is fresh -----

  /** No id occurs twice, and all lie below the prefix. */
  ghost predicate FreshBelow(p: string, ids: multiset<string>) {
    forall x <- ids :: ids[x] == 1 && Below(p, x)
  }

  /** The same, where the prefix itself may be an id. */
  ghost predicate FreshUnder(p: string, ids: multiset<string>) {
    forall x <- ids :: ids[x] == 1 && Under(p, x)
  }

  ghost predicate Misses(retained: multiset<string>, rewritten: set<string>) {
    forall x <- retained :: x !in rewritten
  }

  /** The exact ids of a copied condition. */
  lemma CopiedConditionIds(c: Condition, p: string)
    ensures ConditionIds(ReaddressCondition(c, p))
         == multiset(ConditionRewritten(ReaddressCondition(c, p))) + ConditionRetained(c)
    ensures AllBelow(p, ConditionRewritten(ReaddressCondition(c, p)))
  {
    var copy := ReaddressCondition(c, p);
    ConditionAccounts(copy);
    ConditionRewrittenFresh(c, p);
    ConditionKept(c, p);
    SameConditionAlike(c, copy);
  }

  lemma CopiedValueIds(v: Value, p: string)
    ensures ValueIds(ReaddressValue(v, p)) == multiset(ValueRewritten(ReaddressValue(v, p))) + ValueRetained(v)
    ensures AllUnder(p, ValueRewritten(ReaddressValue(v, p)))
  {
    var copy := ReaddressValue(v, p);
    ValueAccounts(copy);
    ValueRewrittenFresh(v, p);
    ValueKept(v, p);
    SameValueAlike(v, copy);
  }

  lemma FreshBelowParts(p: string, rewritten: set<string>, retained: multiset<string>)
    requires AllBelow(p, rewritten)
    ensures FreshBelow(p, multiset(rewritten) + retained) <==> FreshBelow(p, retained) && Misses(retained, rewritten)
  {
    var ids := multiset(rewritten) + retained;
    if FreshBelow(p, ids) {
      forall x <- retained ensures retained[x] == 1 && Below(p, x) && x !in rewritten {
        assert x in ids && ids[x] == multiset(rewritten)[x] + retained[x];
      }
    } else if FreshBelow(p, retained) && Misses(retained, rewritten) {
      forall x <- ids ensures ids[x] == 1 && Below(p, x) {
        assert x in rewritten || x in retained;
      }
    }
  }

  lemma FreshUnderParts(p: string, rewritten: set<string>, retained: multiset<string>)
    requires AllUnder(p, rewritten)
    ensures FreshUnder(p, multiset(rewritten) + retained) <==> FreshUnder(p, retained) && Misses(retained, rewritten)
  {
    var ids := multiset(rewritten) + retained;
    if FreshUnder(p, ids) {
      forall x <- retained ensures retained[x] == 1 && Under(p, x) && x !in rewritten {
        assert x in ids && ids[x] == multiset(rewritten)[x] + retained[x];
      }
    } else if FreshUnder(p, retained) && Misses(retained, rewritten) {
      forall x <- ids ensures ids[x] == 1 && Under(p, x) {
        assert x in rewritten || x in retained;
      }
    }
  }

  /** A copied condition has all its ids distinct and below the prefix if and only
      if the ids within its sourced values are so, and meet none of the new ones. */
  lemma ConditionFreshIff(c: Condition, p: string)
    ensures FreshBelow(p, ConditionIds(ReaddressCondition(c, p))) <==>
            FreshBelow(p, ConditionRetained(c))
                && Misses(ConditionRetained(c), ConditionRewritten(ReaddressCondition(c, p)))
  {
    CopiedConditionIds(c, p);
    FreshBelowParts(p, ConditionRewritten(ReaddressCondition(c, p)), ConditionRetained(c));
  }

  lemma ValueFreshIff(v: Value, p: string)
    ensures FreshUnder(p, ValueIds(ReaddressValue(v, p))) <==>
            FreshUnder(p, ValueRetained(v)) && Misses(ValueRetained(v), ValueRewritten(ReaddressValue(v, p)))
  {
    CopiedValueIds(v, p);
    FreshUnderParts(p, ValueRewritten(ReaddressValue(v, p)), ValueRetained(v));
  }

  /** Without sourced values a copy is always fresh. */
  lemma ConditionFresh(c: Condition, p: string)
    requires ConditionRetained(c) == multiset{}
    ensures FreshBelow(p, ConditionIds(ReaddressCondition(c, p)))
  {
    ConditionFreshIff(c, p);
  }

  lemma ValueFresh(v: Value, p: string)
    requires ValueRetained(v) == multiset{}
    ensures FreshUnder(p, ValueIds(ReaddressValue(v, p)))
  {
    ValueFreshIff(v, p);
  }

  /** A tree and its copy have every id within a sourced value in common. */
  lemma CopyRepeatsSources(c: Condition, v: Value, p: string, x: string)
    ensures x in ConditionRetained(c) ==> (ConditionIds(c) + ConditionIds(ReaddressCondition(c, p)))[x] >= 2
    ensures x in ValueRetained(v) ==> (ValueIds(v) + ValueIds(ReaddressValue(v, p)))[x] >= 2
  {
    CopiedConditionIds(c, p);
    CopiedValueIds(v, p);
    ConditionHoldsRetained(c);
    ValueHoldsRetained(v);
  }

  lemma {:induction false} ConditionHoldsRetained(c: Condition)
    ensures ConditionRetained(c) <= ConditionIds(c)
    decreases c, 1
  {
    match c
    case Comparison(_, _, l, r) =>
      ValueHoldsRetained(l);
      ValueHoldsRetained(r);
    case Negation(_, child) => ConditionHoldsRetained(child);
    case Leaf(_, _, _) =>
    case Group(_, _, _, children) => ChildrenHoldRetained(children);
  }

  lemma {:induction false} ChildrenHoldRetained(cs: seq<Condition>)
    ensures ChildrenRetained(cs) <= ChildrenIds(cs)
    decreases cs, 0
  {
    if cs != [] {
      ChildrenHoldRetained(cs[..|cs| - 1]);
      ConditionHoldsRetained(cs[|cs| - 1]);
    }
  }

  lemma {:induction false} ValueHoldsRetained(v: Value)
    ensures ValueRetained(v) <= ValueIds(v)
    decreases v, 1
  {
    match v
    case Daily(_, _, operands) => OperandsHoldRetained(operands);
    case CrossSectional(_, _, source) => ValueHoldsRetained(source);
    case Aggregate(_, _, source) => ValueHoldsRetained(source);
    case Score(_, _, terms, conditionTerms) =>
      TermsHoldRetained(terms);
      ConditionTermsHoldRetained(conditionTerms);
    case Sourced(_, _, _) =>
    case Other(_, _) =>
  }

  lemma {:induction false} OperandsHoldRetained(vs: seq<Value>)
    ensures OperandsRetained(vs) <= OperandsIds(vs)
    decreases vs, 0
  {
    if vs != [] {
      OperandsHoldRetained(vs[..|vs| - 1]);
      ValueHoldsRetained(vs[|vs| - 1]);
    }
  }

  lemma {:induction false} TermsHoldRetained(ts: seq<Term>)
    ensures TermsRetained(ts) <= TermsIds(ts)
    decreases ts, 0
  {
    if ts != [] {
      TermsHoldRetained(ts[..|ts| - 1]);
      ValueHoldsRetained(ts[|ts| - 1].value);
    }
  }

  lemma {:induction false} ConditionTermsHoldRetained(ts: seq<ConditionTerm>)
    ensures ConditionTermsRetained(ts) <= ConditionTermsIds(ts)
    decreases ts, 0
  {
    if ts != [] {
      ConditionTermsHoldRetained(ts[..|ts| - 1]);
      ConditionHoldsRetained(ts[|ts| - 1].condition);
    }
  }

  // ----- a copied clocked value -----

  const WEEKLY_SOURCE: string := "weekly-close-source"

  /** The weekly close, read through its clock. */
  function WeeklyClose(data: string, source: string): Value {
    Sourced("weekly-close-value", data, Daily(WEEKLY_SOURCE, source, []))
  }

  function WeeklyAboveLevel(data: string, source: string, operator: string, level: string): Condition {
    Comparison("weekly-above-level", operator, WeeklyClose(data, source), Daily("weekly-level", level, []))
  }

  lemma WeeklySource(data: string, source: string, operator: string, level: string)
    ensures ValueRetained(WeeklyClose(data, source)) == multiset{WEEKLY_SOURCE}
    ensures ConditionRetained(WeeklyAboveLevel(data, source, operator, level)) == multiset{WEEKLY_SOURCE}
  {
    assert ValueIds(Daily(WEEKLY_SOURCE, source, [])) == multiset{WEEKLY_SOURCE};
    assert ValueRetained(Daily("weekly-level", level, [])) == multiset{};
  }

  lemma SourceNotBelow(p: string)
    requires p != "" && p[0] != 'w'
    ensures !Under(p, WEEKLY_SOURCE)
  {
    assert (p + "-")[0] == p[0] && (WEEKLY_SOURCE + "-")[0] == 'w';
  }

  /** Remembering the trigger value of an event on the weekly close, and making a
      state change depend on its condition, copy the id of the weekly source: it is
      not below the new prefix, and the program has it twice. */
  lemma ClockedCopyIsNotFresh(data: string, source: string, operator: string, level: string, n: nat)
    ensures
      var v, p := WeeklyClose(data, source), Dash(Numbered("remember-event-value", n), "value");
      var c, q := WeeklyAboveLevel(data, source, operator, level), Numbered("state-change", n);
      && !FreshUnder(p, ValueIds(ReaddressValue(v, p))) && !FreshBelow(q, ConditionIds(ReaddressCondition(c, q)))
      && (ValueIds(v) + ValueIds(ReaddressValue(v, p)))[WEEKLY_SOURCE] >= 2
      && (ConditionIds(c) + ConditionIds(ReaddressCondition(c, q)))[WEEKLY_SOURCE] >= 2
  {
    var v, p := WeeklyClose(data, source), Dash(Numbered("remember-event-value", n), "value");
    var c, q := WeeklyAboveLevel(data, source, operator, level), Numbered("state-change", n);
    WeeklySource(data, source, operator, level);
    assert p[0] == 'r' && q[0] == 's';
    SourceNotBelow(p);
    SourceNotBelow(q);
    ValueFreshIff(v, p);
    ConditionFreshIff(c, q);
    assert WEEKLY_SOURCE in ValueRetained(v) && WEEKLY_SOURCE in ConditionRetained(c);
    CopyRepeatsSources(c, v, p, WEEKLY_SOURCE);
    CopyRepeatsSources(c, v, q, WEEKLY_SOURCE);
  }
}
