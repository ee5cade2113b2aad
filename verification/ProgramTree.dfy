/** Statement trees of a semantic program: listing every statement, choosing an
    unused id, and wrapping one or two root statements in an IF. */
module ProgramTree {
  import opened Options
  import opened Decimals
  import VisualGraph

  datatype Policy = Otherwise | Retain

  /** `data` stands for the fields that nothing here looks at. */
  datatype Statement =
    | Control(id: string, condition: string, thenPart: seq<Statement>, otherwisePart: seq<Statement>,
              unknownPolicy: Policy, clock: Option<string>)
    | OnEvent(id: string, data: string, statements: seq<Statement>)
    | Guarded(id: string, data: string, primary: Allocation, overrides: seq<Override>, fallback: Option<Allocation>)
    | Simple(id: string, data: string, clockField: Option<Option<string>>)

  /** A statement that holds no other; a guarded one holds only such. */
  datatype Allocation = Allocation(id: string, data: string, clock: Option<string>)

  datatype Override = Override(id: string, data: string, action: Allocation)

  datatype Program = Program(clocks: seq<string>, statements: seq<Statement>)

  datatype ControlDraft = ControlDraft(id: string, condition: Option<string>)

  function Allocate(a: Allocation): Statement {
    Simple(a.id, a.data, Some(a.clock))
  }

  // ----- what occurs in a program -----

  /** x is s, or stands somewhere inside it. */
  ghost predicate OccursIn(x: Statement, s: Statement)
    decreases s
  {
    || x == s
    || match s
       case Control(_, _, t, o, _, _) =>
         || (exists i :: 0 <= i < |t| && OccursIn(x, t[i]))
         || (exists i :: 0 <= i < |o| && OccursIn(x, o[i]))
       case OnEvent(_, _, ss) => exists i :: 0 <= i < |ss| && OccursIn(x, ss[i])
       case Guarded(_, _, primary, overrides, fallback) =>
         || x == Allocate(primary)
         || (exists i :: 0 <= i < |overrides| && x == Allocate(overrides[i].action))
         || (fallback.Some? && x == Allocate(fallback.value))
       case Simple(_, _, _) => false
  }

  ghost predicate Occurs(x: Statement, items: seq<Statement>) {
    exists i :: 0 <= i < |items| && OccursIn(x, items[i])
  }

  /** How often x occurs in s. */
  ghost function TimesIn(x: Statement, s: Statement): nat
    decreases s, 1
  {
    Once(x, s) +
    match s
    case Control(_, _, t, o, _, _) => Times(x, t) + Times(x, o)
    case OnEvent(_, _, ss) => Times(x, ss)
    case Guarded(_, _, primary, overrides, fallback) =>
      Once(x, Allocate(primary)) + TimesAsAction(x, overrides)
      + if fallback.Some? then Once(x, Allocate(fallback.value)) else 0
    case Simple(_, _, _) => 0
  }

  function Once(x: Statement, y: Statement): nat {
    if x == y then 1 else 0
  }

  ghost function Times(x: Statement, items: seq<Statement>): nat
    decreases items, 0
  {
    if items == [] then 0 else TimesIn(x, items[0]) + Times(x, items[1..])
  }

  function TimesAsAction(x: Statement, overrides: seq<Override>): nat {
    if overrides == [] then 0 else Once(x, Allocate(overrides[0].action)) + TimesAsAction(x, overrides[1..])
  }

  // ----- listing -----

  function Flatten(items: seq<Statement>): seq<Statement>
    decreases items, 0
  {
    if items == [] then [] else FlattenOne(items[0]) + Flatten(items[1..])
  }

  function FlattenOne(s: Statement): seq<Statement>
    decreases s, 1
  {
    match s
    case Control(_, _, t, o, _, _) => [s] + Flatten(t) + Flatten(o)
    case OnEvent(_, _, ss) => [s] + Flatten(ss)
    case Guarded(_, _, primary, overrides, fallback) =>
      [s, Allocate(primary)] + Actions(overrides) + (if fallback.Some? then [Allocate(fallback.value)] else [])
    case Simple(_, _, _) => [s]
  }

  function Actions(overrides: seq<Override>): seq<Statement> {
    seq(|overrides|, i requires 0 <= i < |overrides| => Allocate(overrides[i].action))
  }

  function Ids(items: seq<Statement>): seq<string> {
    if items == [] then [] else [items[0].id] + Ids(items[1..])
  }

  predicate Distinct<T(==)>(s: seq<T>) {
    forall i, j | 0 <= i < j < |s| :: s[i] != s[j]
  }

  lemma {:induction false} ActionsListed(x: Statement, overrides: seq<Override>)
    ensures multiset(Actions(overrides))[x] == TimesAsAction(x, overrides)
    ensures TimesAsAction(x, overrides) > 0
       <==> exists i :: 0 <= i < |overrides| && x == Allocate(overrides[i].action)
  {
    if overrides != [] {
      var rest := overrides[1..];
      ActionsListed(x, rest);
      assert Actions(overrides) == [Allocate(overrides[0].action)] + Actions(rest);
      assert forall i | 0 < i < |overrides| :: overrides[i] == rest[i - 1];
    }
  }

  /** A listing names each statement as often as it occurs in the program. */
  lemma {:induction false} FlattenCounts(x: Statement, items: seq<Statement>)
    ensures multiset(Flatten(items))[x] == Times(x, items)
    decreases items, 0
  {
    if items != [] {
      FlattenOneCounts(x, items[0]);
      FlattenCounts(x, items[1..]);
    }
  }

  lemma {:induction false} FlattenOneCounts(x: Statement, s: Statement)
    ensures multiset(FlattenOne(s))[x] == TimesIn(x, s)
    decreases s, 1
  {
    match s
    case Control(_, _, t, o, _, _) =>
      FlattenCounts(x, t);
      FlattenCounts(x, o);
    case OnEvent(_, _, ss) => FlattenCounts(x, ss);
    case Guarded(_, _, _, _, _) => GuardedCounts(x, s);
    case Simple(_, _, _) =>
  }

  lemma GuardedCounts(x: Statement, s: Statement)
    requires s.Guarded?
    ensures multiset(FlattenOne(s))[x] == TimesIn(x, s)
  {
    ActionsListed(x, s.overrides);
    var last := if s.fallback.Some? then [Allocate(s.fallback.value)] else [];
    assert multiset(last)[x] == if s.fallback.Some? then Once(x, Allocate(s.fallback.value)) else 0;
    assert multiset([s, Allocate(s.primary)])[x] == Once(x, s) + Once(x, Allocate(s.primary));
  }

  lemma {:induction false} TimesIff(x: Statement, items: seq<Statement>)
    ensures Times(x, items) > 0 <==> Occurs(x, items)
    decreases items, 0
  {
    if items != [] {
      var rest := items[1..];
      TimesInIff(x, items[0]);
      TimesIff(x, rest);
      if i :| 0 <= i < |items| && OccursIn(x, items[i]) {
        assert i > 0 ==> rest[i - 1] == items[i];
      }
      if i :| 0 <= i < |rest| && OccursIn(x, rest[i]) {
        assert items[i + 1] == rest[i];
      }
    }
  }

  lemma {:induction false} TimesInIff(x: Statement, s: Statement)
    ensures TimesIn(x, s) > 0 <==> OccursIn(x, s)
    decreases s, 1
  {
    match s
    case Control(_, _, t, o, _, _) =>
      TimesIff(x, t);
      TimesIff(x, o);
    case OnEvent(_, _, ss) => TimesIff(x, ss);
    case Guarded(_, _, _, overrides, _) => ActionsListed(x, overrides);
    case Simple(_, _, _) =>
  }

  /** A listing holds exactly what occurs in the program. */
  lemma FlattenExact(x: Statement, items: seq<Statement>)
    ensures x in Flatten(items) <==> Occurs(x, items)
  {
    FlattenCounts(x, items);
    TimesIff(x, items);
    assert x in Flatten(items) <==> x in multiset(Flatten(items));
  }

  /** Listing a concatenation: `flatten([...a, ...b])`. */
  lemma {:induction false} FlattenAppend(a: seq<Statement>, b: seq<Statement>)
    ensures Flatten(a + b) == Flatten(a) + Flatten(b)
  {
    if a == [] {
      assert a + b == b;
    } else {
      assert (a + b)[1..] == a[1..] + b;
      FlattenAppend(a[1..], b);
    }
  }

  lemma {:induction false} IdsAt(items: seq<Statement>)
    ensures |Ids(items)| == |items|
    ensures forall i | 0 <= i < |items| :: Ids(items)[i] == items[i].id
  {
    if items != [] {
      IdsAt(items[1..]);
    }
  }

  lemma DistinctIff<T>(s: seq<T>)
    ensures Distinct(s) <==> forall x <- multiset(s) :: multiset(s)[x] <= 1
  {
    if Distinct(s) {
      forall x <- multiset(s) ensures multiset(s)[x] <= 1 {
        DistinctCount(s, x);
      }
    } else {
      var i, j :| 0 <= i < j < |s| && s[i] == s[j];
      CountTwice(s, i, j);
    }
  }

  lemma CountTwice<T>(s: seq<T>, i: nat, j: nat)
    requires i < j < |s| && s[i] == s[j]
    ensures multiset(s)[s[i]] >= 2
  {
    var rest := s[i + 1..];
    assert s == s[..i] + ([s[i]] + rest);
    assert rest[j - i - 1] == s[j];
    assert multiset(s) == multiset(s[..i]) + multiset{s[i]} + multiset(rest);
  }

  lemma {:induction false} DistinctCount<T>(s: seq<T>, x: T)
    requires Distinct(s)
    ensures multiset(s)[x] <= 1
  {
    if s != [] {
      assert s == [s[0]] + s[1..];
      DistinctCount(s[1..], x);
      if x == s[0] {
        assert x !in s[1..];
      }
    }
  }

  /** Ids are distinct exactly when no statement occurs twice and no two share one;
      which says so of the statements in any order. */
  lemma DistinctIdsIff(items: seq<Statement>)
    ensures Distinct(Ids(items)) <==> IdsIdentify(multiset(items))
  {
    IdsAt(items);
    DistinctIff(items);
    if Distinct(Ids(items)) {
      DistinctIdsIdentify(items);
    } else {
      var i, j :| 0 <= i < j < |items| && Ids(items)[i] == Ids(items)[j];
      assert items[i] in multiset(items) && items[j] in multiset(items);
      if items[i] == items[j] {
        CountTwice(items, i, j);
      }
    }
  }

  ghost predicate IdsIdentify(bag: multiset<Statement>) {
    && (forall s <- bag :: bag[s] <= 1)
    && (forall s, t | s in bag && t in bag && s.id == t.id :: s == t)
  }

  lemma DistinctIdsIdentify(items: seq<Statement>)
    requires Distinct(Ids(items))
    ensures IdsIdentify(multiset(items))
  {
    IdsAt(items);
    forall s, t | s in multiset(items) && t in multiset(items) && s.id == t.id ensures s == t {
      var i :| 0 <= i < |items| && items[i] == s;
      var j :| 0 <= j < |items| && items[j] == t;
      assert Ids(items)[i] == Ids(items)[j];
    }
    assert Distinct(items) by {
      forall i, j | 0 <= i < j < |items| ensures items[i] != items[j] {
        assert Ids(items)[i] != Ids(items)[j];
      }
    }
    DistinctIff(items);
  }

  // ----- unused ids -----

  function Used(statements: seq<Statement>): set<string> {
    set s | s in Flatten(statements) :: s.id
  }

  /** The used ids are those of the statements that occur in the program. */
  lemma UsedExact(statements: seq<Statement>, id: string)
    ensures id in Used(statements) <==> exists s :: Occurs(s, statements) && s.id == id
  {
    forall s ensures s in Flatten(statements) <==> Occurs(s, statements) {
      FlattenExact(s, statements);
    }
  }

  function Numbered(prefix: string, n: nat): string {
    prefix + "-" + Digits(n)
  }

  lemma NumberedInjective(prefix: string, m: nat, n: nat)
    requires Numbered(prefix, m) == Numbered(prefix, n)
    ensures m == n
  {
    var k := |prefix + "-"|;
    assert Digits(m) == Numbered(prefix, m)[k..] && Digits(n) == Numbered(prefix, n)[k..];
    ReadDigitsOfDigits(m);
    ReadDigitsOfDigits(n);
  }

  function Range(prefix: string, from: nat, to: nat): set<string>
    requires from <= to
  {
    if from == to then {} else Range(prefix, from, to - 1) + {Numbered(prefix, to - 1)}
  }

  ghost predicate IsNumbered(prefix: string, from: nat, to: nat, x: string) {
    exists k: nat :: from <= k < to && x == Numbered(prefix, k)
  }

  lemma {:induction false} RangeMembers(prefix: string, from: nat, to: nat, x: string)
    requires from <= to
    ensures x in Range(prefix, from, to) <==> IsNumbered(prefix, from, to, x)
  {
    if from < to {
      RangeMembers(prefix, from, to - 1, x);
    }
  }

  /** Numbered ids are all different, so no more of them fit in a set than it holds. */
  lemma {:induction false} RangeSize(prefix: string, from: nat, to: nat)
    requires from <= to
    ensures |Range(prefix, from, to)| == to - from
  {
    if from < to {
      RangeSize(prefix, from, to - 1);
      var last := Numbered(prefix, to - 1);
      RangeMembers(prefix, from, to - 1, last);
      if k: nat :| from <= k < to - 1 && last == Numbered(prefix, k) {
        NumberedInjective(prefix, k, to - 1);
      }
    }
  }

  lemma {:induction false} RangeUsed(prefix: string, from: nat, to: nat, used: set<string>)
    requires from <= to && forall k | from <= k < to :: Numbered(prefix, k) in used
    ensures Range(prefix, from, to) <= used && to - from <= |used|
  {
    RangeSize(prefix, from, to);
    var r := Range(prefix, from, to);
    forall x | x in r ensures x in used {
      RangeMembers(prefix, from, to, x);
    }
    assert used == r + (used - r);
  }

  /** `nextId`: an unused id, the first one from used.size + 1 on, found with at
      most used.size + 1 probes. */
  method NextId(statements: seq<Statement>, prefix: string) returns (id: string)
    ensures forall s | Occurs(s, statements) :: s.id != id
    ensures
      var size := |Used(statements)|;
      exists n :: size + 1 <= n <= 2 * size + 1 && id == Numbered(prefix, n)
               && forall k | size + 1 <= k < n :: Numbered(prefix, k) in Used(statements)
  {
    var used := Used(statements);
    var n := |used| + 1;
    while Numbered(prefix, n) in used
      invariant |used| + 1 <= n <= 2 * |used| + 1
      invariant forall k | |used| + 1 <= k < n :: Numbered(prefix, k) in used
      decreases 2 * |used| + 1 - n
    {
      RangeUsed(prefix, |used| + 1, n + 1, used);
      n := n + 1;
    }
    id := Numbered(prefix, n);
    UsedExact(statements, id);
  }

  // ----- wrapping -----

  const STATEMENT_PREFIX: string := "statement:"

  /** `childId.replace(/^statement:/, "")`. */
  function StatementId(childId: string): string {
    if STATEMENT_PREFIX <= childId then childId[|STATEMENT_PREFIX|..] else childId
  }

  function InputId(cs: seq<VisualGraph.Connection>, draftId: string, input: string): Option<string> {
    var c := VisualGraph.FindInput(cs, "draft:" + draftId, input);
    if c.None? then None else Some(StatementId(c.value.childId))
  }

  function FindRoot(roots: seq<Statement>, id: string): (r: Option<Statement>)
    ensures r.Some? ==> r.value in roots && r.value.id == id
    ensures r.None? ==> forall s | s in roots :: s.id != id
  {
    if roots == [] then None else if roots[0].id == id then Some(roots[0]) else FindRoot(roots[1..], id)
  }

  predicate Wraps(thenId: string, elseId: Option<string>, s: Statement) {
    s.id == thenId || elseId == Some(s.id)
  }

  /** The first wrapped root, or the number of roots. */
  function FirstWrapped(roots: seq<Statement>, thenId: string, elseId: Option<string>): (k: nat)
    ensures k <= |roots|
    ensures k < |roots| ==> Wraps(thenId, elseId, roots[k])
    ensures forall i | 0 <= i < k :: !Wraps(thenId, elseId, roots[i])
  {
    if roots == [] || Wraps(thenId, elseId, roots[0]) then 0 else 1 + FirstWrapped(roots[1..], thenId, elseId)
  }

  function Retained(roots: seq<Statement>, thenId: string, elseId: Option<string>): seq<Statement> {
    if roots == [] then []
    else if Wraps(thenId, elseId, roots[0]) then Retained(roots[1..], thenId, elseId)
    else [roots[0]] + Retained(roots[1..], thenId, elseId)
  }

  function Wrapped(roots: seq<Statement>, thenId: string, elseId: Option<string>): seq<Statement> {
    if roots == [] then []
    else if Wraps(thenId, elseId, roots[0]) then [roots[0]] + Wrapped(roots[1..], thenId, elseId)
    else Wrapped(roots[1..], thenId, elseId)
  }

  function ClockField(s: Statement): Option<Option<string>> {
    match s
    case Control(_, _, _, _, _, clock) => Some(clock)
    case OnEvent(_, _, _) => None
    case Guarded(_, _, _, _, _) => None
    case Simple(_, _, clockField) => clockField
  }

  function ControlFor(draft: ControlDraft, clocks: seq<string>, t: Statement, o: Option<Statement>): Statement
    requires draft.condition.Some?
  {
    Control(draft.id, draft.condition.value, [t], if o.Some? then [o.value] else [],
            if o.Some? then Otherwise else Retain,
            if ClockField(t).Some? then ClockField(t).value else if clocks == [] then None else Some(clocks[0]))
  }

  datatype Wrap = Wrap(thenId: string, elseId: Option<string>, thenStatement: Statement,
                       elseStatement: Option<Statement>)

  /** What the drawing asks to wrap; None where it is not complete. */
  function Requested(program: Option<Program>, draft: ControlDraft, cs: seq<VisualGraph.Connection>): Option<Wrap> {
    var thenId := InputId(cs, draft.id, "THEN");
    var elseId := InputId(cs, draft.id, "ELSE");
    if program.None? || draft.condition.None? || thenId.None? || thenId.value == "" then None
    else
      var roots := program.value.statements;
      var t := FindRoot(roots, thenId.value);
      var o := if elseId.None? || elseId.value == "" then None else FindRoot(roots, elseId.value);
      if t.None? || (elseId.Some? && elseId.value != "" && o.None?) then None
      else Some(Wrap(thenId.value, elseId, t.value, o))
  }

  // ----- what is asked for, and the control that answers it -----

  /** The first root with the id. */
  ghost predicate NamesRoot(roots: seq<Statement>, id: string, s: Statement) {
    exists k :: 0 <= k < |roots| && roots[k] == s && s.id == id && forall i | 0 <= i < k :: roots[i].id != id
  }

  lemma NamesRootTail(roots: seq<Statement>, id: string, s: Statement)
    requires roots != [] && roots[0].id != id
    ensures NamesRoot(roots, id, s) <==> NamesRoot(roots[1..], id, s)
  {
    var rest := roots[1..];
    if NamesRoot(roots, id, s) {
      var k :| 0 <= k < |roots| && roots[k] == s && s.id == id && forall i | 0 <= i < k :: roots[i].id != id;
      assert rest[k - 1] == s;
    }
    if NamesRoot(rest, id, s) {
      var k :| 0 <= k < |rest| && rest[k] == s && s.id == id && forall i | 0 <= i < k :: rest[i].id != id;
      assert roots[k + 1] == s;
      assert forall i | 0 < i < k + 1 :: roots[i] == rest[i - 1];
    }
  }

  lemma {:induction false} FindRootIff(roots: seq<Statement>, id: string, s: Statement)
    ensures FindRoot(roots, id) == Some(s) <==> NamesRoot(roots, id, s)
  {
    if roots != [] {
      if roots[0].id == id {
        assert roots[0] == s ==> NamesRoot(roots, id, s);
      } else {
        FindRootIff(roots[1..], id, s);
        NamesRootTail(roots, id, s);
      }
    }
  }

  /** The first connection into an input of the drawn control spells this id. */
  ghost predicate Wired(cs: seq<VisualGraph.Connection>, draft: ControlDraft, input: string, id: string) {
    exists k :: 0 <= k < |cs| && VisualGraph.Enters(cs[k], "draft:" + draft.id, input) && Spells(cs[k].childId, id)
             && forall i | 0 <= i < k :: !VisualGraph.Enters(cs[i], "draft:" + draft.id, input)
  }

  /** The root that a branch's input names, by a statement block or by its bare id. */
  ghost predicate Asks(roots: seq<Statement>, cs: seq<VisualGraph.Connection>, draft: ControlDraft, input: string,
                       s: Statement) {
    exists id :: Wired(cs, draft, input, id) && id != "" && NamesRoot(roots, id, s)
  }

  /** A child id spells a statement's id with the prefix of statement blocks or without. */
  predicate Spells(childId: string, id: string) {
    childId == "statement:" + id || (childId == id && !("statement:" <= childId))
  }

  lemma SpellsIff(childId: string, id: string)
    ensures StatementId(childId) == id <==> Spells(childId, id)
  {
    assert "statement:" <= childId ==> childId == "statement:" + childId[|"statement:"|..];
    assert ("statement:" + id)[|"statement:"|..] == id;
  }

  lemma {:induction false} FirstInput(cs: seq<VisualGraph.Connection>, parent: string, input: string) returns (k: nat)
    requires VisualGraph.FindInput(cs, parent, input).Some?
    ensures k < |cs| && cs[k] == VisualGraph.FindInput(cs, parent, input).value
    ensures VisualGraph.Enters(cs[k], parent, input)
    ensures forall i | 0 <= i < k :: !VisualGraph.Enters(cs[i], parent, input)
  {
    if VisualGraph.Enters(cs[0], parent, input) {
      k := 0;
    } else {
      var j := FirstInput(cs[1..], parent, input);
      assert forall i | 0 < i <= j + 1 :: cs[i] == cs[1..][i - 1];
      k := j + 1;
    }
  }

  lemma {:induction false} NoInput(cs: seq<VisualGraph.Connection>, parent: string, input: string)
    requires VisualGraph.FindInput(cs, parent, input).None?
    ensures forall i | 0 <= i < |cs| :: !VisualGraph.Enters(cs[i], parent, input)
  {
    if cs != [] {
      NoInput(cs[1..], parent, input);
      assert forall i | 0 < i < |cs| :: cs[i] == cs[1..][i - 1];
    }
  }

  lemma WiredIff(cs: seq<VisualGraph.Connection>, draft: ControlDraft, input: string, id: string)
    ensures InputId(cs, draft.id, input) == Some(id) <==> Wired(cs, draft, input, id)
  {
    var parent := "draft:" + draft.id;
    if VisualGraph.FindInput(cs, parent, input).None? {
      NoInput(cs, parent, input);
    } else {
      var k := FirstInput(cs, parent, input);
      SpellsIff(cs[k].childId, id);
    }
  }

  lemma AsksIff(roots: seq<Statement>, cs: seq<VisualGraph.Connection>, draft: ControlDraft, input: string,
                s: Statement)
    ensures Asks(roots, cs, draft, input, s) <==>
            var id := InputId(cs, draft.id, input);
            id.Some? && id.value != "" && FindRoot(roots, id.value) == Some(s)
  {
    if InputId(cs, draft.id, input).Some? {
      var id := InputId(cs, draft.id, input).value;
      WiredIff(cs, draft, input, id);
      FindRootIff(roots, id, s);
    }
    if id :| Wired(cs, draft, input, id) && id != "" && NamesRoot(roots, id, s) {
      WiredIff(cs, draft, input, id);
      FindRootIff(roots, id, s);
    }
  }

  /** A drawing is complete if and only if it has a condition, its THEN input names a
      root, and its ELSE input does too unless it is empty. */
  lemma RequestedIff(program: Program, draft: ControlDraft, cs: seq<VisualGraph.Connection>)
    ensures Requested(Some(program), draft, cs).Some? <==>
            && draft.condition.Some? && (exists s :: Asks(program.statements, cs, draft, "THEN", s))
            && ((exists s :: Asks(program.statements, cs, draft, "ELSE", s))
                || forall id | Wired(cs, draft, "ELSE", id) :: id == "")
  {
    var roots := program.statements;
    forall s { AsksIff(roots, cs, draft, "THEN", s); }
    forall s { AsksIff(roots, cs, draft, "ELSE", s); }
    forall id { WiredIff(cs, draft, "ELSE", id); }
  }

  /** The control holds the root that THEN asks for and, if any, the one that ELSE
      asks for, each in its own branch; an unknown condition takes the other branch
      if there is one and retains otherwise; and it keeps the clock of the THEN root
      where that kind of statement has one, else the program's first clock. */
  lemma ControlAnswers(program: Program, draft: ControlDraft, cs: seq<VisualGraph.Connection>)
    requires Requested(Some(program), draft, cs).Some?
    ensures
      var w := Requested(Some(program), draft, cs).value;
      var control := ControlFor(draft, program.clocks, w.thenStatement, w.elseStatement);
      && control.Control? && control.id == draft.id && Some(control.condition) == draft.condition
      && |control.thenPart| == 1 && Asks(program.statements, cs, draft, "THEN", control.thenPart[0])
      && (control.otherwisePart == [] ==> control.unknownPolicy == Retain)
      && (control.otherwisePart != [] ==>
            && control.unknownPolicy == Otherwise && |control.otherwisePart| == 1
            && Asks(program.statements, cs, draft, "ELSE", control.otherwisePart[0]))
      && (control.otherwisePart == [] <==> forall id | Wired(cs, draft, "ELSE", id) :: id == "")
      && (HasClock(control.thenPart[0]) ==> Some(control.clock) == ClockOf(control.thenPart[0]))
      && (!HasClock(control.thenPart[0]) ==>
            control.clock == if |program.clocks| > 0 then Some(program.clocks[0]) else None)
  {
    var w := Requested(Some(program), draft, cs).value;
    AsksIff(program.statements, cs, draft, "THEN", w.thenStatement);
    if w.elseStatement.Some? {
      AsksIff(program.statements, cs, draft, "ELSE", w.elseStatement.value);
    }
    forall id { WiredIff(cs, draft, "ELSE", id); }
  }

  /** Controls have a clock, events and guarded statements do not, and of the others
      the kind decides. */
  predicate HasClock(s: Statement) {
    s.Control? || (s.Simple? && s.clockField.Some?)
  }

  function ClockOf(s: Statement): Option<Option<string>> {
    if s.Control? then Some(s.clock) else if s.Simple? then s.clockField else None
  }

  /** `compileControlDraft`: the program to commit, if the drawing is complete. The
      control takes the place of the first wrapped root, and every other root
      stays where it was. */
  method CompileControlDraft(program: Option<Program>, draft: ControlDraft, cs: seq<VisualGraph.Connection>)
    returns (result: Option<Program>)
    ensures result.Some? <==> Requested(program, draft, cs).Some?
    ensures result.Some? ==>
      var w := Requested(program, draft, cs).value;
      var roots := program.value.statements;
      var k := FirstWrapped(roots, w.thenId, w.elseId);
      && k < |roots|
      && result.value.clocks == program.value.clocks
      && result.value.statements == roots[..k]
           + [ControlFor(draft, program.value.clocks, w.thenStatement, w.elseStatement)]
           + Retained(roots[k + 1..], w.thenId, w.elseId)
      && result.value.statements
           == Committed(roots, w, ControlFor(draft, program.value.clocks, w.thenStatement, w.elseStatement))
  {
    var request := Requested(program, draft, cs);
    if request.None? {
      return None;
    }
    var w := request.value;
    var roots := program.value.statements;
    var insertion := FirstWrapped(roots, w.thenId, w.elseId);
    var retained := Retained(roots, w.thenId, w.elseId);
    var control := ControlFor(draft, program.value.clocks, w.thenStatement, w.elseStatement);
    RetainedAfterFirst(roots, w.thenId, w.elseId);
    retained := retained[..insertion] + [control] + retained[insertion..];
    result := Some(Program(program.value.clocks, retained));
  }

  function RetainedAfter(roots: seq<Statement>, k: nat, thenId: string, elseId: Option<string>): seq<Statement> {
    if k < |roots| then Retained(roots[k + 1..], thenId, elseId) else []
  }

  /** The program that CompileControlDraft answers with. */
  function Committed(roots: seq<Statement>, w: Wrap, control: Statement): seq<Statement> {
    var k := FirstWrapped(roots, w.thenId, w.elseId);
    roots[..k] + [control] + RetainedAfter(roots, k, w.thenId, w.elseId)
  }

  lemma {:induction false} RetainedAfterFirst(roots: seq<Statement>, thenId: string, elseId: Option<string>)
    ensures
      var k := FirstWrapped(roots, thenId, elseId);
      Retained(roots, thenId, elseId) == roots[..k] + RetainedAfter(roots, k, thenId, elseId)
    ensures (exists s :: s in roots && Wraps(thenId, elseId, s)) ==> FirstWrapped(roots, thenId, elseId) < |roots|
  {
    if roots != [] && !Wraps(thenId, elseId, roots[0]) {
      var k := FirstWrapped(roots[1..], thenId, elseId);
      RetainedAfterFirst(roots[1..], thenId, elseId);
      assert roots[..k + 1] == [roots[0]] + roots[1..][..k];
      assert k + 1 < |roots| ==> roots[k + 2..] == roots[1..][k + 1..];
      assert RetainedAfter(roots, k + 1, thenId, elseId) == RetainedAfter(roots[1..], k, thenId, elseId);
    }
  }

  // ----- conservation -----

  /** Every statement of a program, with its multiplicity. */
  function Bag(items: seq<Statement>): multiset<Statement> {
    multiset(Flatten(items))
  }

  function BagOf(s: Option<Statement>): multiset<Statement> {
    if s.Some? then Bag([s.value]) else multiset{}
  }

  lemma BagAppend(a: seq<Statement>, b: seq<Statement>)
    ensures Bag(a + b) == Bag(a) + Bag(b)
  {
    FlattenAppend(a, b);
  }

  lemma {:induction false} BagParts(roots: seq<Statement>, thenId: string, elseId: Option<string>)
    ensures Bag(roots) == Bag(Retained(roots, thenId, elseId)) + Bag(Wrapped(roots, thenId, elseId))
  {
    if roots != [] {
      var rest := roots[1..];
      BagParts(rest, thenId, elseId);
      assert roots == [roots[0]] + rest;
      BagAppend([roots[0]], rest);
      if Wraps(thenId, elseId, roots[0]) {
        BagAppend([roots[0]], Wrapped(rest, thenId, elseId));
      } else {
        BagAppend([roots[0]], Retained(rest, thenId, elseId));
      }
    }
  }

  predicate DistinctRoots(roots: seq<Statement>) {
    forall i, j | 0 <= i < j < |roots| :: roots[i].id != roots[j].id
  }

  lemma FindRootHead(roots: seq<Statement>, id: string)
    requires roots != [] && DistinctRoots(roots) && roots[0].id == id
    ensures FindRoot(roots, id) == Some(roots[0]) && FindRoot(roots[1..], id) == None
  {
  }

  lemma {:induction false} WrappedNone(roots: seq<Statement>, thenId: string, elseId: Option<string>)
    requires forall s | s in roots :: !Wraps(thenId, elseId, s)
    ensures Wrapped(roots, thenId, elseId) == []
  {
    if roots != [] {
      WrappedNone(roots[1..], thenId, elseId);
    }
  }

  function Found(roots: seq<Statement>, id: Option<string>): Option<Statement> {
    if id.None? then None else FindRoot(roots, id.value)
  }

  /** With distinct root ids, the wrapped roots are the two that the ids name. */
  lemma {:induction false} WrappedBag(roots: seq<Statement>, thenId: string, elseId: Option<string>)
    requires DistinctRoots(roots) && elseId != Some(thenId)
    ensures Bag(Wrapped(roots, thenId, elseId)) == BagOf(FindRoot(roots, thenId)) + BagOf(Found(roots, elseId))
  {
    if roots != [] {
      var rest := roots[1..];
      WrappedBag(rest, thenId, elseId);
      FoundBag(roots, Some(thenId));
      FoundBag(roots, elseId);
      if Wraps(thenId, elseId, roots[0]) {
        BagAppend([roots[0]], Wrapped(rest, thenId, elseId));
      }
    }
  }

  lemma FoundBag(roots: seq<Statement>, id: Option<string>)
    requires roots != [] && DistinctRoots(roots)
    ensures BagOf(Found(roots, id)) ==
            if id == Some(roots[0].id) then Bag([roots[0]]) + BagOf(Found(roots[1..], id))
            else BagOf(Found(roots[1..], id))
  {
    if id == Some(roots[0].id) {
      FindRootHead(roots, roots[0].id);
    }
  }

  lemma {:induction false} WrappedTwice(roots: seq<Statement>, id: string)
    requires DistinctRoots(roots)
    ensures Bag(Wrapped(roots, id, Some(id))) == BagOf(FindRoot(roots, id))
  {
    if roots != [] {
      WrappedTwice(roots[1..], id);
      if roots[0].id == id {
        FindRootHead(roots, id);
        BagAppend([roots[0]], Wrapped(roots[1..], id, Some(id)));
      }
    }
  }

  lemma CommittedBag(roots: seq<Statement>, w: Wrap, control: Statement)
    requires control.Control?
    ensures Bag(Committed(roots, w, control))
         == Bag(Retained(roots, w.thenId, w.elseId)) + Bag([control])
  {
    var k := FirstWrapped(roots, w.thenId, w.elseId);
    var tail := RetainedAfter(roots, k, w.thenId, w.elseId);
    RetainedAfterFirst(roots, w.thenId, w.elseId);
    BagInsert(roots[..k], control, tail);
  }

  lemma BagInsert(a: seq<Statement>, s: Statement, b: seq<Statement>)
    ensures Bag(a + [s] + b) == Bag(a + b) + Bag([s])
  {
    BagAppend(a, b);
    BagAppend(a + [s], b);
    BagAppend(a, [s]);
  }

  lemma ControlBag(control: Statement)
    requires control.Control?
    ensures Bag([control]) == multiset{control} + Bag(control.thenPart) + Bag(control.otherwisePart)
  {
    assert Flatten([control]) == FlattenOne(control);
  }

  lemma BagNotEmpty(s: Statement)
    ensures |Bag([s])| > 0
  {
    assert Flatten([s])[0] == s;
    assert s in Bag([s]);
  }

  /** Every statement occurs as often as before, and the control once more. */
  ghost predicate Conserves(roots: seq<Statement>, committed: seq<Statement>, control: Statement) {
    forall x :: Times(x, committed) == Times(x, roots) + Once(x, control)
  }

  lemma ConservesBags(roots: seq<Statement>, committed: seq<Statement>, control: Statement)
    ensures Conserves(roots, committed, control) <==> Bag(committed) == Bag(roots) + multiset{control}
  {
    forall x
      ensures Bag(committed)[x] == Times(x, committed)
      ensures (Bag(roots) + multiset{control})[x] == Times(x, roots) + Once(x, control)
    {
      FlattenCounts(x, committed);
      FlattenCounts(x, roots);
    }
    if Conserves(roots, committed, control) {
      forall x ensures Bag(committed)[x] == (Bag(roots) + multiset{control})[x] {
        assert Times(x, committed) == Times(x, roots) + Once(x, control);
      }
    }
  }

  /** Wrapping loses and copies nothing, unless one root is asked for in both
      branches, or OTHERWISE holds an unnamed statement and an unnamed root
      exists: exactly then the committed program is not the old one plus the
      control. */
  lemma ConservesIff(program: Program, draft: ControlDraft, cs: seq<VisualGraph.Connection>)
    requires Requested(Some(program), draft, cs).Some? && DistinctRoots(program.statements)
    ensures
      var w := Requested(Some(program), draft, cs).value;
      var control := ControlFor(draft, program.clocks, w.thenStatement, w.elseStatement);
      Conserves(program.statements, Committed(program.statements, w, control), control) <==>
      w.elseId != Some(w.thenId) && (w.elseId == Some("") ==> FindRoot(program.statements, "") == None)
  {
    var roots := program.statements;
    var w := Requested(Some(program), draft, cs).value;
    var control := ControlFor(draft, program.clocks, w.thenStatement, w.elseStatement);
    CommittedConservesIff(roots, w, control);
  }

  lemma CommittedConservesIff(roots: seq<Statement>, w: Wrap, control: Statement)
    requires DistinctRoots(roots) && FoundIn(roots, w) && Holds(control, w)
    ensures Conserves(roots, Committed(roots, w, control), control) <==>
            w.elseId != Some(w.thenId) && (w.elseId == Some("") ==> FindRoot(roots, "") == None)
  {
    ConservesBags(roots, Committed(roots, w, control), control);
    CommittedBag(roots, w, control);
    ControlBag(control);
    BagParts(roots, w.thenId, w.elseId);
    WrapBagIff(roots, w);
    assert Bag(control.otherwisePart) == BagOf(w.elseStatement);
    CompareBags(Bag(Committed(roots, w, control)), Bag(roots), Bag(Retained(roots, w.thenId, w.elseId)),
                Bag(Wrapped(roots, w.thenId, w.elseId)), Bag([w.thenStatement]) + BagOf(w.elseStatement), control);
  }

  ghost predicate Holds(control: Statement, w: Wrap) {
    && control.Control?
    && control.thenPart == [w.thenStatement]
    && control.otherwisePart == if w.elseStatement.Some? then [w.elseStatement.value] else []
  }

  lemma CompareBags(committed: multiset<Statement>, original: multiset<Statement>, kept: multiset<Statement>,
                    dropped: multiset<Statement>, wrapped: multiset<Statement>, control: Statement)
    requires committed == kept + (multiset{control} + wrapped) && original == kept + dropped
    ensures committed == original + multiset{control} <==> wrapped == dropped
  {
    if committed == original + multiset{control} {
      forall x ensures wrapped[x] == dropped[x] {
        assert committed[x] == kept[x] + multiset{control}[x] + wrapped[x];
        assert (original + multiset{control})[x] == kept[x] + dropped[x] + multiset{control}[x];
      }
    }
  }

  ghost predicate FoundIn(roots: seq<Statement>, w: Wrap) {
    && FindRoot(roots, w.thenId) == Some(w.thenStatement)
    && w.elseStatement == (if w.elseId == Some("") then None else Found(roots, w.elseId))
    && (w.elseId.Some? && w.elseId.value != "" ==> w.elseStatement.Some?)
    && w.thenId != ""
  }

  /** The wrapped roots are the statements that the control holds, or not. */
  lemma WrapBagIff(roots: seq<Statement>, w: Wrap)
    requires DistinctRoots(roots) && FoundIn(roots, w)
    ensures Bag([w.thenStatement]) + BagOf(w.elseStatement) == Bag(Wrapped(roots, w.thenId, w.elseId)) <==>
            w.elseId != Some(w.thenId) && (w.elseId == Some("") ==> FindRoot(roots, "") == None)
  {
    if w.elseId == Some(w.thenId) {
      WrappedTwice(roots, w.thenId);
      BagNotEmpty(w.thenStatement);
      Larger(Bag([w.thenStatement]), BagOf(w.elseStatement));
    } else {
      WrappedBag(roots, w.thenId, w.elseId);
      if w.elseId == Some("") && FindRoot(roots, "").Some? {
        BagNotEmpty(FindRoot(roots, "").value);
        Larger(Bag([w.thenStatement]), BagOf(Found(roots, w.elseId)));
      }
    }
  }

  lemma Larger(a: multiset<Statement>, b: multiset<Statement>)
    requires |b| > 0
    ensures a + b != a
  {
    assert |a + b| == |a| + |b|;
  }

  /** How the canvas keeps connections: under their child, so that no two have the same. */
  predicate Keyed(cs: seq<VisualGraph.Connection>) {
    forall i, j | 0 <= i < j < |cs| :: cs[i].childId != cs[j].childId
  }

  predicate IsStatementBlock(childId: string) {
    STATEMENT_PREFIX <= childId && childId != STATEMENT_PREFIX
  }

  /** With the connections of a draft, both inputs holding statement blocks, nothing
      is ever lost or copied. */
  lemma StatementBlocksConserve(program: Program, draft: ControlDraft, cs: seq<VisualGraph.Connection>)
    requires Requested(Some(program), draft, cs).Some? && DistinctRoots(program.statements) && Keyed(cs)
    requires
      var thenChild := VisualGraph.FindInput(cs, "draft:" + draft.id, "THEN");
      var elseChild := VisualGraph.FindInput(cs, "draft:" + draft.id, "ELSE");
      && (thenChild.Some? ==> IsStatementBlock(thenChild.value.childId))
      && (elseChild.Some? ==> IsStatementBlock(elseChild.value.childId))
    ensures
      var w := Requested(Some(program), draft, cs).value;
      var control := ControlFor(draft, program.clocks, w.thenStatement, w.elseStatement);
      Conserves(program.statements, Committed(program.statements, w, control), control)
  {
    ConservesIff(program, draft, cs);
    var thenChild := VisualGraph.FindInput(cs, "draft:" + draft.id, "THEN");
    var elseChild := VisualGraph.FindInput(cs, "draft:" + draft.id, "ELSE");
    if elseChild.Some? {
      assert "THEN"[0] == 'T' && "ELSE"[0] == 'E';
      assert thenChild.value != elseChild.value;
      DifferentChildren(cs, thenChild.value, elseChild.value);
      PrefixedDiffer(thenChild.value.childId, elseChild.value.childId);
    }
  }

  lemma DifferentChildren(cs: seq<VisualGraph.Connection>, a: VisualGraph.Connection, b: VisualGraph.Connection)
    requires Keyed(cs) && a in cs && b in cs && a != b
    ensures a.childId != b.childId
  {
    var i :| 0 <= i < |cs| && cs[i] == a;
    var j :| 0 <= j < |cs| && cs[j] == b;
    assert cs[if i < j then i else j].childId != cs[if i < j then j else i].childId;
  }

  lemma PrefixedDiffer(a: string, b: string)
    requires IsStatementBlock(a) && IsStatementBlock(b) && a != b
    ensures StatementId(a) != StatementId(b) && StatementId(b) != ""
  {
    assert a == STATEMENT_PREFIX + StatementId(a) && b == STATEMENT_PREFIX + StatementId(b);
  }

  // ----- a copied root -----

  /** THEN holds the block of root x; ELSE a block that is itself keyed x. */
  function TwoSpellings(draftId: string, x: string): seq<VisualGraph.Connection> {
    [VisualGraph.Connection(STATEMENT_PREFIX + x, Some("draft:" + draftId), Some("THEN")),
     VisualGraph.Connection(x, Some("draft:" + draftId), Some("ELSE"))]
  }

  lemma TwoSpellingsInputs(draftId: string, x: string)
    requires !(STATEMENT_PREFIX <= x)
    ensures InputId(TwoSpellings(draftId, x), draftId, "THEN") == Some(x)
    ensures InputId(TwoSpellings(draftId, x), draftId, "ELSE") == Some(x)
    ensures Keyed(TwoSpellings(draftId, x))
  {
    var cs := TwoSpellings(draftId, x);
    assert "THEN"[0] == 'T' && "ELSE"[0] == 'E';
    assert cs[1..] == [cs[1]];
    assert VisualGraph.FindInput([cs[1]], "draft:" + draftId, "ELSE") == Some(cs[1]);
    assert |STATEMENT_PREFIX + x| > |x|;
    assert (STATEMENT_PREFIX + x)[|STATEMENT_PREFIX|..] == x;
  }

  /** The ids lose their prefix before they are compared. A draft whose connections
      are keyed by child, but whose OTHERWISE child is not a statement block and is
      keyed like a root, gets that root in both branches: the commit copies it. */
  lemma TwoSpellingsCopyRoot(program: Program, draft: ControlDraft, x: string)
    requires DistinctRoots(program.statements) && draft.condition.Some?
    requires x != "" && !(STATEMENT_PREFIX <= x) && FindRoot(program.statements, x).Some?
    ensures Keyed(TwoSpellings(draft.id, x))
    ensures
      var request := Requested(Some(program), draft, TwoSpellings(draft.id, x));
      && request.Some?
      && var control := ControlFor(draft, program.clocks, request.value.thenStatement, request.value.elseStatement);
      !Conserves(program.statements, Committed(program.statements, request.value, control), control)
  {
    TwoSpellingsInputs(draft.id, x);
    ConservesIff(program, draft, TwoSpellings(draft.id, x));
  }

  /** Every statement occurs once, and its id tells it from all others. */
  ghost predicate Identified(items: seq<Statement>) {
    && (forall s :: Times(s, items) <= 1)
    && (forall s, t | Occurs(s, items) && Occurs(t, items) && s.id == t.id :: s == t)
  }

  lemma IdentifiedIff(items: seq<Statement>)
    ensures Identified(items) <==> Distinct(Ids(Flatten(items)))
  {
    DistinctIdsIff(Flatten(items));
    IdentifiedBag(items);
  }

  lemma IdentifiedBag(items: seq<Statement>)
    ensures Identified(items) <==> IdsIdentify(Bag(items))
  {
    forall s ensures Bag(items)[s] == Times(s, items) && (s in Bag(items) <==> Occurs(s, items)) {
      FlattenCounts(s, items);
      TimesIff(s, items);
    }
  }

  /** A conserving wrap keeps ids distinct exactly when the control's id was unused. */
  lemma DistinctAfterWrap(roots: seq<Statement>, committed: seq<Statement>, control: Statement)
    requires Identified(roots) && Conserves(roots, committed, control)
    ensures Identified(committed) <==> forall s | Occurs(s, roots) :: s.id != control.id
  {
    ConservesBags(roots, committed, control);
    IdentifiedBag(roots);
    IdentifiedBag(committed);
    OneMore(Bag(roots), control);
    forall s ensures s in Bag(roots) <==> Occurs(s, roots) {
      FlattenExact(s, roots);
    }
  }

  lemma OneMore(bag: multiset<Statement>, control: Statement)
    requires IdsIdentify(bag)
    ensures IdsIdentify(bag + multiset{control}) <==> !exists s :: s in bag && s.id == control.id
  {
    var more := bag + multiset{control};
    assert control in more;
    if s :| s in bag && s.id == control.id {
      assert s in more;
      assert more[control] == bag[control] + 1;
    } else {
      assert control !in bag;
      forall s <- more ensures more[s] <= 1 {
      }
    }
  }
}
