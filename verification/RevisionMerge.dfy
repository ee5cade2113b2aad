/** Merging a local and a remote strategy over their common base, as offered when
    a save meets a newer revision. */
module RevisionMerge {
  import opened Options
  import opened Sorting

  /** A JSON value; Absent is a missing field or item, Token a number or boolean. */
  datatype Node =
    | Absent
    | Null
    | Token(text: string)
    | Text(s: string)
    | List(items: seq<Node>)
    | Record(fields: seq<Entry>)

  datatype Entry = Entry(name: string, value: Node)

  datatype Merge = Merge(value: Node, local: seq<string>, remote: seq<string>, conflicts: seq<string>)

  const SEMANTIC_ID: string := "semantic_id"
  const ID: string := "id"

  // ----- looking into a value -----

  function Field(fields: seq<Entry>, name: string): Node {
    if fields == [] then Absent
    else if fields[0].name == name then fields[0].value
    else Field(fields[1..], name)
  }

  /** `identity`. */
  function Identity(n: Node): Option<string> {
    if !n.Record? then None
    else
      var semantic := Field(n.fields, SEMANTIC_ID);
      var key := if semantic.Absent? || semantic.Null? then Field(n.fields, ID) else semantic;
      if key.Text? then Some(key.s) else None
  }

  /** The last item with an identity, as the map of the items by identity holds it. */
  function ItemWith(items: seq<Node>, id: string): Node {
    if items == [] then Absent
    else
      var later := ItemWith(items[1..], id);
      if later.Absent? && Identity(items[0]) == Some(id) then items[0] else later
  }

  /** What a value holds under a field name, or under an item's identity. */
  function Child(n: Node, k: string): Node {
    match n
    case Record(fields) => Field(fields, k)
    case List(items) => ItemWith(items, k)
    case _ => Absent
  }

  /** What a value holds at an address. */
  function At(n: Node, address: seq<string>): Node
    decreases |address|
  {
    if address == [] then n else At(Child(n, address[0]), address[1..])
  }

  predicate Identifiable(items: seq<Node>) {
    forall i | 0 <= i < |items| :: Identity(items[i]).Some?
  }

  /** Three values that are merged child by child. */
  predicate Mergeable(b: Node, l: Node, r: Node) {
    || (b.List? && l.List? && r.List? && Identifiable(b.items + l.items + r.items))
    || (b.Record? && l.Record? && r.Record?)
  }

  // ----- keys -----

  function Names(fields: seq<Entry>): seq<string> {
    if fields == [] then [] else [fields[0].name] + Names(fields[1..])
  }

  function Ids(items: seq<Node>): seq<string> {
    if items == [] then []
    else (if Identity(items[0]).Some? then [Identity(items[0]).value] else []) + Ids(items[1..])
  }

  function KeysOf(n: Node): seq<string> {
    match n
    case Record(fields) => Names(fields)
    case List(items) => Ids(items)
    case _ => []
  }

  /** First occurrences only. */
  function Once(ks: seq<string>): seq<string> {
    if ks == [] then []
    else
      var before := Once(ks[..|ks| - 1]);
      if ks[|ks| - 1] in before then before else before + [ks[|ks| - 1]]
  }

  function Same(k: string): string { k }

  /** Items in the order of remote, then local, then base; fields by name. */
  function AllKeys(b: Node, l: Node, r: Node): seq<string> {
    if b.List? then Once(KeysOf(r) + KeysOf(l) + KeysOf(b))
    else Sort(Once(KeysOf(b) + KeysOf(l) + KeysOf(r)), Same, StringLess)
  }

  // ----- size -----

  function Size(n: Node): nat
    decreases n, 1
  {
    match n
    case List(items) => 1 + ItemsSize(items)
    case Record(fields) => 1 + FieldsSize(fields)
    case Absent => 0
    case _ => 1
  }

  function ItemsSize(items: seq<Node>): nat
    decreases items, 0
  {
    if items == [] then 0 else Size(items[0]) + ItemsSize(items[1..])
  }

  function FieldsSize(fields: seq<Entry>): nat
    decreases fields, 0
  {
    if fields == [] then 0 else Size(fields[0].value) + FieldsSize(fields[1..])
  }

  lemma {:induction false} FieldSmaller(fields: seq<Entry>, k: string)
    ensures Size(Field(fields, k)) <= FieldsSize(fields)
  {
    if fields != [] {
      FieldSmaller(fields[1..], k);
    }
  }

  lemma {:induction false} ItemSmaller(items: seq<Node>, id: string)
    ensures Size(ItemWith(items, id)) <= ItemsSize(items)
  {
    if items != [] {
      ItemSmaller(items[1..], id);
    }
  }

  lemma ChildSmaller(n: Node, k: string)
    requires n.List? || n.Record?
    ensures Size(Child(n, k)) < Size(n)
  {
    match n
    case Record(fields) => FieldSmaller(fields, k);
    case List(items) => ItemSmaller(items, k);
  }

  lemma ChildrenSmaller(b: Node, l: Node, r: Node, k: string)
    requires Mergeable(b, l, r)
    ensures Size(Child(b, k)) + Size(Child(l, k)) + Size(Child(r, k)) < Size(b) + Size(l) + Size(r)
  {
    ChildSmaller(b, k);
    ChildSmaller(l, k);
    ChildSmaller(r, k);
  }

  // ----- the merge -----

  /** `mergeValue`. */
  function Merged(b: Node, l: Node, r: Node, path: string): Merge
    decreases Size(b) + Size(l) + Size(r), 1, 0
  {
    if l == b then Merge(r, [], if r == b then [] else [path], [])
    else if r == b then Merge(l, [path], [], [])
    else if l == r then Merge(l, [path], [path], [])
    else if Mergeable(b, l, r) then
      Joined(b.List?, AllKeys(b, l, r), ChildMerges(b, l, r, AllKeys(b, l, r), path))
    else Merge(r, [path], [path], [path])
  }

  function ChildMerges(b: Node, l: Node, r: Node, keys: seq<string>, path: string): (ms: seq<Merge>)
    requires Mergeable(b, l, r)
    ensures |ms| == |keys|
    decreases Size(b) + Size(l) + Size(r), 0, |keys|
  {
    if keys == [] then []
    else
      var n := |keys| - 1;
      ChildrenSmaller(b, l, r, keys[n]);
      ChildMerges(b, l, r, keys[..n], path)
        + [Merged(Child(b, keys[n]), Child(l, keys[n]), Child(r, keys[n]), path + "/" + keys[n])]
  }

  function Joined(list: bool, keys: seq<string>, ms: seq<Merge>): Merge
    requires |ms| == |keys|
  {
    var kept := Kept(keys, ms);
    Merge(if list then List(Values(kept)) else Record(kept), Locals(ms), Remotes(ms), Conflicts(ms))
  }

  /** The children that are there after merging. */
  function Kept(keys: seq<string>, ms: seq<Merge>): seq<Entry>
    requires |ms| == |keys|
  {
    if keys == [] then []
    else
      var n := |keys| - 1;
      var before := Kept(keys[..n], ms[..n]);
      if ms[n].value.Absent? then before else before + [Entry(keys[n], ms[n].value)]
  }

  function Values(fields: seq<Entry>): seq<Node> {
    if fields == [] then [] else Values(fields[..|fields| - 1]) + [fields[|fields| - 1].value]
  }

  function Locals(ms: seq<Merge>): seq<string> {
    if ms == [] then [] else Locals(ms[..|ms| - 1]) + ms[|ms| - 1].local
  }

  function Remotes(ms: seq<Merge>): seq<string> {
    if ms == [] then [] else Remotes(ms[..|ms| - 1]) + ms[|ms| - 1].remote
  }

  function Conflicts(ms: seq<Merge>): seq<string> {
    if ms == [] then [] else Conflicts(ms[..|ms| - 1]) + ms[|ms| - 1].conflicts
  }

  /** The merge of what b, l and r hold under one key. */
  function MergedAt(b: Node, l: Node, r: Node, k: string, path: string): Merge {
    Merged(Child(b, k), Child(l, k), Child(r, k), path + "/" + k)
  }

  lemma ChildMergesStep(b: Node, l: Node, r: Node, keys: seq<string>, i: nat, path: string)
    requires Mergeable(b, l, r) && i < |keys|
    ensures keys[..i + 1] == keys[..i] + [keys[i]]
    ensures ChildMerges(b, l, r, keys[..i + 1], path)
         == ChildMerges(b, l, r, keys[..i], path) + [MergedAt(b, l, r, keys[i], path)]
  {
    assert keys[..i + 1][..i] == keys[..i] && keys[..i + 1][i] == keys[i];
  }

  /** `mergeValue`, with its two accumulating loops. */
  method MergeValue(b: Node, l: Node, r: Node, path: string) returns (m: Merge)
    ensures m == Merged(b, l, r, path)
    decreases Size(b) + Size(l) + Size(r)
  {
    if l == b {
      return Merge(r, [], if r == b then [] else [path], []);
    }
    if r == b {
      return Merge(l, [path], [], []);
    }
    if l == r {
      return Merge(l, [path], [path], []);
    }
    if !Mergeable(b, l, r) {
      return Merge(r, [path], [path], [path]);
    }
    var keys := AllKeys(b, l, r);
    var kept: seq<Entry> := [];
    var values: seq<Node> := [];
    var locals: seq<string>, remotes: seq<string>, conflicts: seq<string> := [], [], [];
    for i := 0 to |keys|
      invariant Accumulated(kept, values, locals, remotes, conflicts, keys[..i], ChildMerges(b, l, r, keys[..i], path))
    {
      ChildrenSmaller(b, l, r, keys[i]);
      ChildMergesStep(b, l, r, keys, i, path);
      var child := MergeValue(Child(b, keys[i]), Child(l, keys[i]), Child(r, keys[i]), path + "/" + keys[i]);
      AccumulateOne(kept, values, locals, remotes, conflicts, keys[..i], ChildMerges(b, l, r, keys[..i], path),
                    keys[i], child);
      locals, remotes, conflicts := locals + child.local, remotes + child.remote, conflicts + child.conflicts;
      if !child.value.Absent? {
        kept, values := kept + [Entry(keys[i], child.value)], values + [child.value];
      }
    }
    assert keys[..|keys|] == keys;
    m := Merge(if b.List? then List(values) else Record(kept), locals, remotes, conflicts);
  }

  /** What the loops have collected from the merges of the keys so far. */
  ghost predicate Accumulated(kept: seq<Entry>, values: seq<Node>, locals: seq<string>, remotes: seq<string>,
                              conflicts: seq<string>, keys: seq<string>, ms: seq<Merge>) {
    && |ms| == |keys| && kept == Kept(keys, ms) && values == Values(kept)
    && locals == Locals(ms) && remotes == Remotes(ms) && conflicts == Conflicts(ms)
  }

  lemma AccumulateOne(kept: seq<Entry>, values: seq<Node>, locals: seq<string>, remotes: seq<string>,
                      conflicts: seq<string>, keys: seq<string>, ms: seq<Merge>, key: string, child: Merge)
    requires Accumulated(kept, values, locals, remotes, conflicts, keys, ms)
    ensures Accumulated(if child.value.Absent? then kept else kept + [Entry(key, child.value)],
                        if child.value.Absent? then values else values + [child.value],
                        locals + child.local, remotes + child.remote, conflicts + child.conflicts,
                        keys + [key], ms + [child])
  {
    assert (keys + [key])[..|keys|] == keys && (ms + [child])[..|ms|] == ms;
    var entry := Entry(key, child.value);
    assert (kept + [entry])[..|kept|] == kept;
  }

  // ----- keys and children -----

  predicate Distinct(ks: seq<string>) {
    forall i, j | 0 <= i < j < |ks| :: ks[i] != ks[j]
  }

  lemma {:induction false} OnceExact(ks: seq<string>)
    ensures Distinct(Once(ks)) && forall k :: k in Once(ks) <==> k in ks
  {
    if ks != [] {
      OnceExact(ks[..|ks| - 1]);
      assert ks == ks[..|ks| - 1] + [ks[|ks| - 1]];
    }
  }

  lemma SortedKeysDistinct(ks: seq<string>)
    requires Distinct(ks)
    ensures Distinct(Sort(ks, Same, StringLess)) && forall x :: x in Sort(ks, Same, StringLess) <==> x in ks
  {
    SortDistinct(ks, Same, StringLess);
    var sorted := Sort(ks, Same, StringLess);
    assert forall i | 0 <= i < |sorted| :: Same(sorted[i]) == sorted[i];
  }

  lemma AllKeysExact(b: Node, l: Node, r: Node)
    ensures Distinct(AllKeys(b, l, r))
    ensures forall k :: k in AllKeys(b, l, r) <==> k in KeysOf(b) || k in KeysOf(l) || k in KeysOf(r)
  {
    OnceExact(KeysOf(r) + KeysOf(l) + KeysOf(b));
    OnceExact(KeysOf(b) + KeysOf(l) + KeysOf(r));
    SortedKeysDistinct(Once(KeysOf(b) + KeysOf(l) + KeysOf(r)));
  }

  lemma {:induction false} FieldNamed(fields: seq<Entry>, k: string)
    ensures k !in Names(fields) ==> Field(fields, k) == Absent
  {
    if fields != [] {
      FieldNamed(fields[1..], k);
    }
  }

  lemma {:induction false} ItemNamed(items: seq<Node>, k: string)
    ensures k !in Ids(items) ==> ItemWith(items, k) == Absent
    ensures ItemWith(items, k).Absent? || Identity(ItemWith(items, k)) == Some(k)
  {
    if items != [] {
      ItemNamed(items[1..], k);
    }
  }

  /** Under a key of none of the three there is nothing. */
  lemma NoSuchChild(b: Node, l: Node, r: Node, k: string)
    requires k !in AllKeys(b, l, r)
    ensures Child(b, k) == Child(l, k) == Child(r, k) == Absent
  {
    AllKeysExact(b, l, r);
    ChildNamed(b, k);
    ChildNamed(l, k);
    ChildNamed(r, k);
  }

  lemma ChildNamed(n: Node, k: string)
    ensures k !in KeysOf(n) ==> Child(n, k) == Absent
  {
    match n
    case Record(fields) => FieldNamed(fields, k);
    case List(items) => ItemNamed(items, k);
    case _ =>
  }

  lemma {:induction false} ChildMergesAt(b: Node, l: Node, r: Node, keys: seq<string>, path: string, i: nat)
    requires Mergeable(b, l, r) && i < |keys|
    ensures ChildMerges(b, l, r, keys, path)[i] == MergedAt(b, l, r, keys[i], path)
  {
    var n := |keys| - 1;
    if i < n {
      ChildMergesAt(b, l, r, keys[..n], path, i);
    }
  }

  // ----- what joining keeps -----

  lemma {:induction false} FieldAppend(fields: seq<Entry>, e: Entry, k: string)
    ensures Field(fields + [e], k) ==
            if k in Names(fields) then Field(fields, k) else if e.name == k then e.value else Absent
    ensures Names(fields + [e]) == Names(fields) + [e.name]
  {
    if fields == [] {
      assert fields + [e] == [e];
    } else {
      assert (fields + [e])[1..] == fields[1..] + [e];
      FieldAppend(fields[1..], e, k);
    }
  }

  lemma {:induction false} ItemAppend(items: seq<Node>, x: Node, k: string)
    ensures ItemWith(items + [x], k) == if Identity(x) == Some(k) then x else ItemWith(items, k)
  {
    if items == [] {
      assert items + [x] == [x];
    } else {
      assert (items + [x])[1..] == items[1..] + [x];
      ItemAppend(items[1..], x, k);
    }
  }

  lemma {:induction false} KeptNames(keys: seq<string>, ms: seq<Merge>)
    requires |ms| == |keys|
    ensures forall k | k in Names(Kept(keys, ms)) :: k in keys
  {
    if keys != [] {
      var n := |keys| - 1;
      KeptNames(keys[..n], ms[..n]);
      FieldAppend(Kept(keys[..n], ms[..n]), Entry(keys[n], ms[n].value), "");
    }
  }

  lemma {:induction false} KeptField(keys: seq<string>, ms: seq<Merge>, i: nat)
    requires |ms| == |keys| && Distinct(keys) && i < |keys|
    ensures Field(Kept(keys, ms), keys[i]) == ms[i].value
  {
    var n := |keys| - 1;
    var before := Kept(keys[..n], ms[..n]);
    KeptNames(keys[..n], ms[..n]);
    FieldAppend(before, Entry(keys[n], ms[n].value), keys[i]);
    if i < n {
      KeptField(keys[..n], ms[..n], i);
      if keys[i] !in Names(before) {
        FieldNamed(before, keys[i]);
      }
    } else {
      FieldNamed(before, keys[n]);
    }
  }

  /** Each merged item is gone, or still has the identity it was merged under. */
  ghost predicate Identified(keys: seq<string>, ms: seq<Merge>)
    requires |ms| == |keys|
  {
    forall i | 0 <= i < |keys| :: GoneOr(ms[i].value, keys[i])
  }

  predicate GoneOr(n: Node, id: string) {
    n.Absent? || Identity(n) == Some(id)
  }

  lemma ValuesAppend(kept: seq<Entry>, e: Entry, k: string)
    requires GoneOr(e.value, e.name) && !e.value.Absent?
    ensures ItemWith(Values(kept + [e]), k) == if e.name == k then e.value else ItemWith(Values(kept), k)
  {
    assert (kept + [e])[..|kept|] == kept;
    ItemAppend(Values(kept), e.value, k);
  }

  lemma {:induction false} KeptItem(keys: seq<string>, ms: seq<Merge>, i: nat)
    requires |ms| == |keys| && Distinct(keys) && Identified(keys, ms) && i < |keys|
    ensures ItemWith(Values(Kept(keys, ms)), keys[i]) == ms[i].value
  {
    var n := |keys| - 1;
    assert GoneOr(ms[n].value, keys[n]);
    assert Identified(keys[..n], ms[..n]);
    if i < n {
      KeptItem(keys[..n], ms[..n], i);
    } else {
      KeptNoItem(keys[..n], ms[..n], keys[n]);
    }
    if !ms[n].value.Absent? {
      ValuesAppend(Kept(keys[..n], ms[..n]), Entry(keys[n], ms[n].value), keys[i]);
    }
  }

  lemma {:induction false} KeptNoItem(keys: seq<string>, ms: seq<Merge>, k: string)
    requires |ms| == |keys| && Identified(keys, ms) && k !in keys
    ensures ItemWith(Values(Kept(keys, ms)), k) == Absent
  {
    if keys != [] {
      var n := |keys| - 1;
      assert GoneOr(ms[n].value, keys[n]);
      assert Identified(keys[..n], ms[..n]);
      KeptNoItem(keys[..n], ms[..n], k);
      if !ms[n].value.Absent? {
        ValuesAppend(Kept(keys[..n], ms[..n]), Entry(keys[n], ms[n].value), k);
      }
    }
  }

  lemma {:induction false} ConflictsIff(ms: seq<Merge>)
    ensures Conflicts(ms) == [] <==> forall i | 0 <= i < |ms| :: ms[i].conflicts == []
  {
    if ms != [] {
      var init, last := ms[..|ms| - 1], ms[|ms| - 1];
      ConflictsIff(init);
      assert Conflicts(ms) == Conflicts(init) + last.conflicts;
      assert forall i | 0 <= i < |init| :: init[i] == ms[i];
    }
  }

  // ----- identities survive -----

  /** A record names itself by `semantic_id` or by `id`, not by both. */
  predicate OneName(n: Node) {
    n.Record? ==> Field(n.fields, SEMANTIC_ID).Absent? || Field(n.fields, ID).Absent?
  }

  ghost predicate Tidy(n: Node) {
    && OneName(n)
    && match n
       case Record(fields) => forall i | 0 <= i < |fields| :: Tidy(fields[i].value)
       case List(items) => forall i | 0 <= i < |items| :: Tidy(items[i])
       case _ => true
  }

  lemma {:induction false} FieldTidy(fields: seq<Entry>, k: string)
    requires forall i | 0 <= i < |fields| :: Tidy(fields[i].value)
    ensures Tidy(Field(fields, k))
  {
    if fields != [] {
      FieldTidy(fields[1..], k);
    }
  }

  lemma {:induction false} ItemTidy(items: seq<Node>, k: string)
    requires forall i | 0 <= i < |items| :: Tidy(items[i])
    ensures Tidy(ItemWith(items, k))
  {
    if items != [] {
      ItemTidy(items[1..], k);
    }
  }

  lemma ChildTidy(n: Node, k: string)
    requires Tidy(n)
    ensures Tidy(Child(n, k))
  {
    match n
    case Record(fields) => FieldTidy(fields, k);
    case List(items) => ItemTidy(items, k);
    case _ =>
  }

  /** n is gone, or is called id. */
  predicate Called(n: Node, id: string) {
    n.Absent? || (Identity(n) == Some(id) && OneName(n))
  }

  predicate OneOf(n: Node, id: string) {
    n == Absent || n == Text(id)
  }

  lemma MergeOfTwo(b: Node, l: Node, r: Node, id: string, path: string)
    requires OneOf(b, id) && OneOf(l, id) && OneOf(r, id)
    ensures Merged(b, l, r, path).value == if l == b then r else l
  {
  }

  /** A merged record holds, under each name, the merge of what the three hold. */
  lemma MergedField(b: Node, l: Node, r: Node, k: string, path: string)
    requires b.Record? && l.Record? && r.Record? && l != b && r != b && l != r
    ensures
      var m := Merged(b, l, r, path).value;
      m.Record? && Field(m.fields, k) == MergedAt(b, l, r, k, path).value
  {
    var keys := AllKeys(b, l, r);
    var ms := ChildMerges(b, l, r, keys, path);
    AllKeysExact(b, l, r);
    if k in keys {
      var i :| 0 <= i < |keys| && keys[i] == k;
      KeptField(keys, ms, i);
      ChildMergesAt(b, l, r, keys, path, i);
    } else {
      NoSuchChild(b, l, r, k);
      KeptNames(keys, ms);
      FieldNamed(Kept(keys, ms), k);
    }
  }

  lemma CalledByOneName(n: Node, id: string)
    requires n.Record? && Called(n, id)
    ensures
      var s, i := Field(n.fields, SEMANTIC_ID), Field(n.fields, ID);
      (s == Text(id) && i == Absent) || (s == Absent && i == Text(id))
  {
  }

  lemma CalledIf(n: Node, id: string)
    requires n.Record?
    requires
      var s, i := Field(n.fields, SEMANTIC_ID), Field(n.fields, ID);
      (s == Text(id) && i == Absent) || (s == Absent && i == Text(id))
    ensures Identity(n) == Some(id)
  {
  }

  /** Merging three versions of an item without conflict keeps its identity. */
  lemma IdentitySurvives(b: Node, l: Node, r: Node, id: string, path: string)
    requires Called(b, id) && Called(l, id) && Called(r, id) && Merged(b, l, r, path).conflicts == []
    ensures
      var m := Merged(b, l, r, path).value;
      m.Absent? || Identity(m) == Some(id)
  {
    if l != b && r != b && l != r && b.Record? && l.Record? && r.Record? {
      var m := Merged(b, l, r, path).value;
      CalledByOneName(b, id);
      CalledByOneName(l, id);
      CalledByOneName(r, id);
      MergedField(b, l, r, SEMANTIC_ID, path);
      MergedField(b, l, r, ID, path);
      MergeOfTwo(Field(b.fields, SEMANTIC_ID), Field(l.fields, SEMANTIC_ID), Field(r.fields, SEMANTIC_ID), id,
                 path + "/" + SEMANTIC_ID);
      MergeOfTwo(Field(b.fields, ID), Field(l.fields, ID), Field(r.fields, ID), id, path + "/" + ID);
      CalledIf(m, id);
    }
  }

  lemma ItemCalled(items: seq<Node>, id: string)
    requires Tidy(List(items))
    ensures Called(ItemWith(items, id), id)
  {
    ItemNamed(items, id);
    ItemTidy(items, id);
  }

  lemma MergedIdentified(b: Node, l: Node, r: Node, path: string)
    requires b.List? && l.List? && r.List? && Mergeable(b, l, r) && l != b && r != b && l != r
    requires Tidy(b) && Tidy(l) && Tidy(r) && Merged(b, l, r, path).conflicts == []
    ensures Identified(AllKeys(b, l, r), ChildMerges(b, l, r, AllKeys(b, l, r), path))
  {
    var keys := AllKeys(b, l, r);
    var ms := ChildMerges(b, l, r, keys, path);
    MergedConflicts(b, l, r, path);
    ConflictsIff(ms);
    forall i | 0 <= i < |keys| ensures GoneOr(ms[i].value, keys[i]) {
      ChildMergesAt(b, l, r, keys, path, i);
      ItemCalled(b.items, keys[i]);
      ItemCalled(l.items, keys[i]);
      ItemCalled(r.items, keys[i]);
      IdentitySurvives(Child(b, keys[i]), Child(l, keys[i]), Child(r, keys[i]), keys[i], path + "/" + keys[i]);
    }
  }

  lemma MergedItem(b: Node, l: Node, r: Node, k: string, path: string)
    requires b.List? && l.List? && r.List? && Mergeable(b, l, r) && l != b && r != b && l != r
    requires Tidy(b) && Tidy(l) && Tidy(r) && Merged(b, l, r, path).conflicts == []
    ensures
      var m := Merged(b, l, r, path).value;
      m.List? && ItemWith(m.items, k) == MergedAt(b, l, r, k, path).value
  {
    var keys := AllKeys(b, l, r);
    var ms := ChildMerges(b, l, r, keys, path);
    AllKeysExact(b, l, r);
    MergedIdentified(b, l, r, path);
    if k in keys {
      var i :| 0 <= i < |keys| && keys[i] == k;
      KeptItem(keys, ms, i);
      ChildMergesAt(b, l, r, keys, path, i);
    } else {
      KeptNoItem(keys, ms, k);
      NoSuchChild(b, l, r, k);
    }
  }

  /** Merging commutes with looking under a key. */
  lemma MergedChild(b: Node, l: Node, r: Node, k: string, path: string)
    requires Mergeable(b, l, r) && l != b && r != b && l != r
    requires Tidy(b) && Tidy(l) && Tidy(r) && Merged(b, l, r, path).conflicts == []
    ensures Child(Merged(b, l, r, path).value, k) == MergedAt(b, l, r, k, path).value
    ensures MergedAt(b, l, r, k, path).conflicts == []
  {
    if b.Record? {
      MergedField(b, l, r, k, path);
    } else {
      MergedItem(b, l, r, k, path);
    }
    NoChildConflict(b, l, r, k, path);
  }

  lemma NoChildConflict(b: Node, l: Node, r: Node, k: string, path: string)
    requires Mergeable(b, l, r) && l != b && r != b && l != r && Merged(b, l, r, path).conflicts == []
    ensures MergedAt(b, l, r, k, path).conflicts == []
  {
    var keys := AllKeys(b, l, r);
    MergedConflicts(b, l, r, path);
    ConflictsIff(ChildMerges(b, l, r, keys, path));
    if k in keys {
      var i :| 0 <= i < |keys| && keys[i] == k;
      ChildMergesAt(b, l, r, keys, path, i);
    } else {
      NoSuchChild(b, l, r, k);
      NothingMerged(path + "/" + k);
    }
  }

  lemma MergedConflicts(b: Node, l: Node, r: Node, path: string)
    requires Mergeable(b, l, r) && l != b && r != b && l != r
    ensures Merged(b, l, r, path).conflicts == Conflicts(ChildMerges(b, l, r, AllKeys(b, l, r), path))
  {
  }

  lemma NothingMerged(path: string)
    ensures Merged(Absent, Absent, Absent, path) == Merge(Absent, [], [], [])
  {
  }

  predicate Missing(n: Node) {
    n.Absent? || n.Null?
  }

  /** One side drops the `semantic_id` of item x, which the base repeats as its `id`,
      and the other side keeps it and changes the `id`. */
  predicate DropsName(b: Node, dropping: Node, keeping: Node, x: string)
    requires b.Record? && dropping.Record? && keeping.Record?
  {
    && Field(b.fields, SEMANTIC_ID) == Text(x) && Field(b.fields, ID) == Text(x)
    && Missing(Field(dropping.fields, SEMANTIC_ID))
    && Field(keeping.fields, SEMANTIC_ID) == Text(x) && Field(keeping.fields, ID) != Text(x)
  }

  lemma NamedFields(n: Node, x: string)
    requires n.Record?
    ensures Identity(n) == Some(x) <==>
            Field(n.fields, SEMANTIC_ID) == Text(x)
            || (Missing(Field(n.fields, SEMANTIC_ID)) && Field(n.fields, ID) == Text(x))
  {
  }

  /** The merged name of an item, from its two fields in the three versions. */
  lemma MergedNameIff(bs: Node, ls: Node, rs: Node, bi: Node, li: Node, ri: Node, x: string, p: string, q: string)
    requires bs == Text(x) || (Missing(bs) && bi == Text(x))
    requires ls == Text(x) || (Missing(ls) && li == Text(x))
    requires rs == Text(x) || (Missing(rs) && ri == Text(x))
    requires Merged(bs, ls, rs, p).conflicts == [] && Merged(bi, li, ri, q).conflicts == []
    ensures
      var ms, mi := Merged(bs, ls, rs, p).value, Merged(bi, li, ri, q).value;
      ms == Text(x) || (Missing(ms) && mi == Text(x)) <==>
      !(bs == Text(x) && bi == Text(x) && Missing(ls) && rs == Text(x) && ri != Text(x))
      && !(bs == Text(x) && bi == Text(x) && Missing(rs) && ls == Text(x) && li != Text(x))
  {
  }

  /** Merging three versions of an item without conflict keeps its identity if and
      only if neither side drops the name that the other side goes by. */
  lemma IdentitySurvivesIff(b: Node, l: Node, r: Node, x: string, path: string)
    requires b.Record? && l.Record? && r.Record? && Merged(b, l, r, path).conflicts == []
    requires Identity(b) == Some(x) && Identity(l) == Some(x) && Identity(r) == Some(x)
    ensures Identity(Merged(b, l, r, path).value) == Some(x) <==> !DropsName(b, l, r, x) && !DropsName(b, r, l, x)
  {
    NamedFields(b, x);
    NamedFields(l, x);
    NamedFields(r, x);
    if l != b && r != b && l != r {
      MergedField(b, l, r, SEMANTIC_ID, path);
      MergedField(b, l, r, ID, path);
      NoChildConflict(b, l, r, SEMANTIC_ID, path);
      NoChildConflict(b, l, r, ID, path);
      NamedFields(Merged(b, l, r, path).value, x);
      MergedNameIff(Field(b.fields, SEMANTIC_ID), Field(l.fields, SEMANTIC_ID), Field(r.fields, SEMANTIC_ID),
                    Field(b.fields, ID), Field(l.fields, ID), Field(r.fields, ID), x,
                    path + "/" + SEMANTIC_ID, path + "/" + ID);
    }
  }

  /** A record under both names. */
  function Twice(semantic: string, id: string): Node {
    Record([Entry(SEMANTIC_ID, Text(semantic)), Entry(ID, Text(id))])
  }

  lemma TwiceFields(semantic: string, id: string, k: string)
    ensures Field(Twice(semantic, id).fields, k)
         == if k == SEMANTIC_ID then Text(semantic) else if k == ID then Text(id) else Absent
    ensures Identity(Twice(semantic, id)) == Some(semantic)
  {
    var fields := Twice(semantic, id).fields;
    assert |SEMANTIC_ID| != |ID|;
    assert fields[1..] == [Entry(ID, Text(id))];
    assert Field(fields[1..], k) == if k == ID then Text(id) else Absent;
  }

  /** Items named twice are why one name is asked for: where local drops the
      `semantic_id` and remote changes the `id`, a merge without conflict of three
      versions of item x calls itself y. */
  lemma TwoNamesLoseIdentity(x: string, y: string, path: string)
    requires x != y
    ensures
      var b, l, r := Twice(x, x), Record([Entry(ID, Text(x))]), Twice(x, y);
      && Identity(b) == Identity(l) == Identity(r) == Some(x)
      && Merged(b, l, r, path).conflicts == [] && Identity(Merged(b, l, r, path).value) == Some(y)
  {
    var b, l, r := Twice(x, x), Record([Entry(ID, Text(x))]), Twice(x, y);
    OneField(x, SEMANTIC_ID);
    TwiceFields(x, x, ID);
    TwiceFields(x, y, SEMANTIC_ID);
    TwiceFields(x, y, ID);
    TwiceFields(x, x, SEMANTIC_ID);
    OneField(x, ID);
    MergedField(b, l, r, SEMANTIC_ID, path);
    MergedField(b, l, r, ID, path);
    TwoNamesMerge(x, y, path);
  }

  lemma OneField(x: string, k: string)
    ensures Field([Entry(ID, Text(x))], k) == if k == ID then Text(x) else Absent
    ensures |SEMANTIC_ID| != |ID|
  {
    assert [Entry(ID, Text(x))][1..] == [];
  }

  lemma TwoNamesMerge(x: string, y: string, path: string)
    requires x != y
    ensures Merged(Twice(x, x), Record([Entry(ID, Text(x))]), Twice(x, y), path).conflicts == []
  {
    var b, l, r := Twice(x, x), Record([Entry(ID, Text(x))]), Twice(x, y);
    TwiceFields(x, x, ID);
    TwiceFields(x, y, ID);
    TwiceFields(x, x, SEMANTIC_ID);
    OneField(x, SEMANTIC_ID);
    var keys := AllKeys(b, l, r);
    var ms := ChildMerges(b, l, r, keys, path);
    MergedConflicts(b, l, r, path);
    ConflictsIff(ms);
    forall i | 0 <= i < |keys| ensures ms[i].conflicts == [] {
      ChildMergesAt(b, l, r, keys, path, i);
      TwiceFields(x, x, keys[i]);
      TwiceFields(x, y, keys[i]);
      OneField(x, keys[i]);
    }
  }

  // ----- what a merge holds at each address -----

  /** What a three-way merge must hold at one address: remote where local did not
      change the base, local where remote did not, and either where they agree. */
  predicate Reconciles(b: Node, l: Node, r: Node, m: Node) {
    && (l == b ==> m == r)
    && (r == b ==> m == l)
    && (l == r ==> m == l)
  }

  /** A merge without conflict reconciles both sides at every address, however deep. */
  lemma {:induction false} MergeReconciles(b: Node, l: Node, r: Node, path: string, address: seq<string>)
    requires Tidy(b) && Tidy(l) && Tidy(r) && Merged(b, l, r, path).conflicts == []
    ensures Reconciles(At(b, address), At(l, address), At(r, address), At(Merged(b, l, r, path).value, address))
    decreases |address|
  {
    if l != b && r != b && l != r && address != [] {
      var k := address[0];
      MergedChild(b, l, r, k, path);
      ChildTidy(b, k);
      ChildTidy(l, k);
      ChildTidy(r, k);
      MergeReconciles(Child(b, k), Child(l, k), Child(r, k), path + "/" + k, address[1..]);
    }
  }

  /** All three differ, and cannot be merged child by child. */
  ghost predicate ClashesAt(b: Node, l: Node, r: Node, address: seq<string>) {
    var x, y, z := At(b, address), At(l, address), At(r, address);
    y != x && z != x && y != z && !Mergeable(x, y, z)
  }

  /** A merge reports a conflict exactly when the two sides clash at some address. */
  lemma ConflictIff(b: Node, l: Node, r: Node, path: string)
    ensures Merged(b, l, r, path).conflicts == [] <==> forall address :: !ClashesAt(b, l, r, address)
  {
    if Merged(b, l, r, path).conflicts == [] {
      forall address ensures !ClashesAt(b, l, r, address) {
        NoClash(b, l, r, path, address);
      }
    } else {
      var address := FindClash(b, l, r, path);
    }
  }

  lemma {:induction false} NoClash(b: Node, l: Node, r: Node, path: string, address: seq<string>)
    requires Merged(b, l, r, path).conflicts == []
    ensures !ClashesAt(b, l, r, address)
    decreases |address|
  {
    if l != b && r != b && l != r && address != [] {
      var k := address[0];
      NoChildConflict(b, l, r, k, path);
      NoClash(Child(b, k), Child(l, k), Child(r, k), path + "/" + k, address[1..]);
    }
  }

  lemma {:induction false} FindClash(b: Node, l: Node, r: Node, path: string) returns (address: seq<string>)
    requires Merged(b, l, r, path).conflicts != []
    ensures ClashesAt(b, l, r, address)
    decreases Size(b) + Size(l) + Size(r)
  {
    if Mergeable(b, l, r) {
      var k := ConflictingKey(b, l, r, path);
      ChildrenSmaller(b, l, r, k);
      var rest := FindClash(Child(b, k), Child(l, k), Child(r, k), path + "/" + k);
      address := [k] + rest;
      ClashBelow(b, l, r, k, rest);
    } else {
      address := [];
    }
  }

  lemma ConflictingKey(b: Node, l: Node, r: Node, path: string) returns (k: string)
    requires Mergeable(b, l, r) && Merged(b, l, r, path).conflicts != []
    ensures MergedAt(b, l, r, k, path).conflicts != []
  {
    var keys := AllKeys(b, l, r);
    var ms := ChildMerges(b, l, r, keys, path);
    MergedConflicts(b, l, r, path);
    ConflictsIff(ms);
    var i :| 0 <= i < |ms| && ms[i].conflicts != [];
    ChildMergesAt(b, l, r, keys, path, i);
    k := keys[i];
  }

  lemma ClashBelow(b: Node, l: Node, r: Node, k: string, rest: seq<string>)
    requires ClashesAt(Child(b, k), Child(l, k), Child(r, k), rest)
    ensures ClashesAt(b, l, r, [k] + rest)
  {
    assert ([k] + rest)[1..] == rest;
  }

  /** Which side is called local makes no difference to whether there is a conflict. */
  lemma ConflictSymmetric(b: Node, l: Node, r: Node, path: string)
    ensures Merged(b, l, r, path).conflicts == [] <==> Merged(b, r, l, path).conflicts == []
  {
    ConflictIff(b, l, r, path);
    ConflictIff(b, r, l, path);
    forall address ensures ClashesAt(b, l, r, address) <==> ClashesAt(b, r, l, address) {
      MergeableSymmetric(At(b, address), At(l, address), At(r, address));
    }
  }

  lemma MergeableSymmetric(b: Node, l: Node, r: Node)
    ensures Mergeable(b, l, r) <==> Mergeable(b, r, l)
  {
    if b.List? && l.List? && r.List? {
      AllIdentifiable(b.items, l.items, r.items);
      AllIdentifiable(b.items, r.items, l.items);
    }
  }

  lemma AllIdentifiable(a: seq<Node>, b: seq<Node>, c: seq<Node>)
    ensures Identifiable(a + b + c) <==> Identifiable(a) && Identifiable(b) && Identifiable(c)
  {
    var all := a + b + c;
    if Identifiable(all) {
      assert forall i | 0 <= i < |a| :: a[i] == all[i];
      assert forall i | 0 <= i < |b| :: b[i] == all[|a| + i];
      assert forall i | 0 <= i < |c| :: c[i] == all[|a| + |b| + i];
    }
  }

  // ----- a merge that is older than the work it replaces -----

  /** The address has one value to give: one side left the base alone, or both agree. */
  predicate Decided(b: Node, l: Node, r: Node) {
    r == b || l == b || l == r
  }

  /** In a merge without conflict, what is not decided is merged child by child. */
  lemma UndecidedIsMergeable(b: Node, l: Node, r: Node, path: string, address: seq<string>)
    requires Merged(b, l, r, path).conflicts == []
    ensures Decided(At(b, address), At(l, address), At(r, address))
         || Mergeable(At(b, address), At(l, address), At(r, address))
  {
    NoClash(b, l, r, path, address);
  }

  /** The merge of the work `sent`, put in the place of the later work `shown`, holds
      at a decided address what is shown if and only if that is still what was sent,
      where remote left the base alone, and is what remote has, where it did not. */
  lemma StaleMergeKeepsIff(b: Node, sent: Node, shown: Node, r: Node, path: string, a: seq<string>)
    requires Tidy(b) && Tidy(sent) && Tidy(r) && Merged(b, sent, r, path).conflicts == []
    requires Decided(At(b, a), At(sent, a), At(r, a))
    ensures At(Merged(b, sent, r, path).value, a) == At(shown, a) <==>
            At(shown, a) == if At(r, a) == At(b, a) then At(sent, a) else At(r, a)
  {
    MergeReconciles(b, sent, r, path, a);
  }

  /** Where merging the later work would give no conflict either, and the address is
      decided alike for both, the older merge is the newer one there if and only if
      the work was not changed where remote left the base alone. */
  lemma StaleMergeIsFreshIff(b: Node, sent: Node, shown: Node, r: Node, path: string, a: seq<string>)
    requires Tidy(b) && Tidy(sent) && Tidy(shown) && Tidy(r)
    requires Merged(b, sent, r, path).conflicts == [] && Merged(b, shown, r, path).conflicts == []
    requires Decided(At(b, a), At(sent, a), At(r, a)) && Decided(At(b, a), At(shown, a), At(r, a))
    ensures At(Merged(b, sent, r, path).value, a) == At(Merged(b, shown, r, path).value, a) <==>
            (At(r, a) == At(b, a) ==> At(sent, a) == At(shown, a))
  {
    MergeReconciles(b, sent, r, path, a);
    MergeReconciles(b, shown, r, path, a);
  }

  function Pair(f: string, u: Node, g: string, v: Node): Node {
    Record([Entry(f, u), Entry(g, v)])
  }

  lemma PairField(f: string, u: Node, g: string, v: Node, k: string)
    ensures Field(Pair(f, u, g, v).fields, k) == if k == f then u else if k == g then v else Absent
  {
    var fields := Pair(f, u, g, v).fields;
    assert fields[1..] == [Entry(g, v)] && fields[1..][1..] == [];
    assert Field(fields[1..], k) == if k == g then v else Absent;
  }

  lemma PairsEqual(f: string, u: Node, u': Node, g: string, v: Node, v': Node)
    ensures Pair(f, u, g, v) == Pair(f, u', g, v') <==> u == u' && v == v'
  {
    var p, q := Pair(f, u, g, v).fields, Pair(f, u', g, v').fields;
    assert p[0].value == u && q[0].value == u' && p[1].value == v && q[1].value == v';
  }

  lemma {:induction false} AtLeaf(n: Node, a: seq<string>)
    requires !n.Record? && !n.List?
    ensures At(n, a) == if a == [] then n else Absent
    decreases |a|
  {
    if a != [] {
      AtLeaf(Absent, a[1..]);
    }
  }

  lemma AtPair(f: string, u: Node, g: string, v: Node, a: seq<string>)
    requires a != [] && !u.Record? && !u.List? && !v.Record? && !v.List?
    ensures At(Pair(f, u, g, v), a) ==
            if |a| > 1 then Absent else if a[0] == f then u else if a[0] == g then v else Absent
  {
    PairField(f, u, g, v, a[0]);
    AtLeaf(Field(Pair(f, u, g, v).fields, a[0]), a[1..]);
  }

  /** Where local changed one field and remote the other, there is no conflict. */
  lemma PairsMerge(f: string, u: Node, u': Node, g: string, v: Node, v': Node, path: string)
    requires f != g && u != u' && v != v'
    ensures
      var m := Merged(Pair(f, u, g, v), Pair(f, u, g, v'), Pair(f, u', g, v), path);
      m.conflicts == [] && m.value.Record? && Field(m.value.fields, f) == u'
  {
    var b, l, r := Pair(f, u, g, v), Pair(f, u, g, v'), Pair(f, u', g, v);
    PairsEqual(f, u, u, g, v, v');
    PairsEqual(f, u, u', g, v, v);
    PairsEqual(f, u, u', g, v', v);
    var keys := AllKeys(b, l, r);
    var ms := ChildMerges(b, l, r, keys, path);
    MergedConflicts(b, l, r, path);
    ConflictsIff(ms);
    forall i | 0 <= i < |keys| ensures ms[i].conflicts == [] {
      ChildMergesAt(b, l, r, keys, path, i);
      PairField(f, u, g, v, keys[i]);
      PairField(f, u, g, v', keys[i]);
      PairField(f, u', g, v, keys[i]);
    }
    PairField(f, u, g, v, f);
    PairField(f, u, g, v', f);
    PairField(f, u', g, v, f);
    MergedField(b, l, r, f, path);
  }

  /** An older merge overwrites later work silently. Local had changed g when the
      conflict was met, and changes f since, which remote had changed too. Wherever
      remote left the base alone the shown work is still what was sent, and the older
      merge has no conflict; it puts remote's f in the place of the shown one, while
      merging the shown work would report the conflict. */
  lemma StaleMergeOverwritesSilently(f: string, x: string, y: string, z: string, g: string, v: string, v': string,
                                     path: string)
    requires f != g && x != y && x != z && y != z && v != v'
    ensures
      var b, sent := Pair(f, Text(x), g, Text(v)), Pair(f, Text(x), g, Text(v'));
      var shown, r := Pair(f, Text(y), g, Text(v')), Pair(f, Text(z), g, Text(v));
      && (forall a :: At(r, a) == At(b, a) ==> At(shown, a) == At(sent, a))
      && Merged(b, sent, r, path).conflicts == [] && Merged(b, shown, r, path).conflicts != []
      && At(shown, [f]) == Text(y) && At(Merged(b, sent, r, path).value, [f]) == Text(z)
  {
    var b, sent := Pair(f, Text(x), g, Text(v)), Pair(f, Text(x), g, Text(v'));
    var shown, r := Pair(f, Text(y), g, Text(v')), Pair(f, Text(z), g, Text(v));
    forall a ensures At(r, a) == At(b, a) ==> At(shown, a) == At(sent, a) {
      PairUntouched(f, x, y, z, g, v, v', a);
    }
    PairsMerge(f, Text(x), Text(z), g, Text(v), Text(v'), path);
    assert [f][1..] == [];
    AtPair(f, Text(x), g, Text(v), [f]);
    AtPair(f, Text(y), g, Text(v'), [f]);
    AtPair(f, Text(z), g, Text(v), [f]);
    ClashReported(b, shown, r, path, [f]);
  }

  lemma ClashReported(b: Node, l: Node, r: Node, path: string, a: seq<string>)
    requires ClashesAt(b, l, r, a)
    ensures Merged(b, l, r, path).conflicts != []
  {
    ConflictIff(b, l, r, path);
  }

  lemma PairUntouched(f: string, x: string, y: string, z: string, g: string, v: string, v': string, a: seq<string>)
    requires f != g && x != z
    ensures At(Pair(f, Text(z), g, Text(v)), a) == At(Pair(f, Text(x), g, Text(v)), a) ==>
              At(Pair(f, Text(y), g, Text(v')), a) == At(Pair(f, Text(x), g, Text(v')), a)
  {
    PairsEqual(f, Text(z), Text(x), g, Text(v), Text(v));
    if a != [] {
      AtPair(f, Text(x), g, Text(v), a);
      AtPair(f, Text(z), g, Text(v), a);
      AtPair(f, Text(y), g, Text(v'), a);
      AtPair(f, Text(x), g, Text(v'), a);
    }
  }

  // ----- the order of a merged list -----

  /** The ids, in order, whose items are still there after merging. */
  function Surviving(keys: seq<string>, ms: seq<Merge>): seq<string>
    requires |ms| == |keys|
  {
    if keys == [] then []
    else
      var n := |keys| - 1;
      var before := Surviving(keys[..n], ms[..n]);
      if ms[n].value.Absent? then before else before + [keys[n]]
  }

  lemma {:induction false} IdsAppend(items: seq<Node>, x: Node)
    ensures Ids(items + [x]) == Ids(items) + if Identity(x).Some? then [Identity(x).value] else []
  {
    if items == [] {
      assert items + [x] == [x];
    } else {
      assert (items + [x])[1..] == items[1..] + [x];
      IdsAppend(items[1..], x);
    }
  }

  lemma {:induction false} KeptIds(keys: seq<string>, ms: seq<Merge>)
    requires |ms| == |keys| && Identified(keys, ms)
    ensures Ids(Values(Kept(keys, ms))) == Surviving(keys, ms)
  {
    if keys != [] {
      var n := |keys| - 1;
      var before, e := Kept(keys[..n], ms[..n]), Entry(keys[n], ms[n].value);
      assert GoneOr(ms[n].value, keys[n]);
      assert Identified(keys[..n], ms[..n]);
      KeptIds(keys[..n], ms[..n]);
      assert (before + [e])[..|before|] == before;
      IdsAppend(Values(before), e.value);
    }
  }

  /** x comes before y: it occurs, and y does not occur ahead of it. */
  predicate Before(ks: seq<string>, x: string, y: string) {
    x in ks && FirstOf(ks, x) < FirstOf(ks, y)
  }

  function FirstOf(ks: seq<string>, x: string): (i: nat)
    ensures i <= |ks| && (x in ks <==> i < |ks|)
    ensures i < |ks| ==> ks[i] == x
    ensures forall j | 0 <= j < i :: ks[j] != x
  {
    if ks == [] then 0 else if ks[0] == x then 0 else 1 + FirstOf(ks[1..], x)
  }

  lemma FirstOfIs(ks: seq<string>, x: string, i: nat)
    requires i < |ks| && ks[i] == x && forall j | 0 <= j < i :: ks[j] != x
    ensures FirstOf(ks, x) == i
  {
  }

  lemma FirstOfAppend(a: seq<string>, b: seq<string>, x: string)
    ensures FirstOf(a + b, x) == if x in a then FirstOf(a, x) else |a| + FirstOf(b, x)
  {
    var ks := a + b;
    if x in a {
      FirstOfIs(ks, x, FirstOf(a, x));
    } else if x in b {
      FirstOfIs(ks, x, |a| + FirstOf(b, x));
    } else {
      assert x !in ks;
    }
  }

  /** Dropping repetitions keeps the order of first occurrences. */
  lemma {:induction false} OnceOrder(ks: seq<string>, x: string, y: string)
    ensures Before(Once(ks), x, y) <==> Before(ks, x, y)
  {
    OnceExact(ks);
    if ks != [] {
      var init, last := ks[..|ks| - 1], ks[|ks| - 1];
      OnceExact(init);
      OnceOrder(init, x, y);
      assert ks == init + [last];
      FirstOfAppend(init, [last], x);
      FirstOfAppend(init, [last], y);
      FirstOfAppend(Once(init), [last], x);
      FirstOfAppend(Once(init), [last], y);
    }
  }

  lemma {:induction false} SurvivingExact(keys: seq<string>, ms: seq<Merge>, i: nat)
    requires |ms| == |keys| && Distinct(keys) && i < |keys|
    ensures keys[i] in Surviving(keys, ms) <==> !ms[i].value.Absent?
    ensures forall k | k in Surviving(keys, ms) :: k in keys
  {
    var n := |keys| - 1;
    SurvivingMembers(keys[..n], ms[..n]);
    if i < n {
      SurvivingExact(keys[..n], ms[..n], i);
    }
  }

  lemma {:induction false} SurvivingMembers(keys: seq<string>, ms: seq<Merge>)
    requires |ms| == |keys|
    ensures forall k | k in Surviving(keys, ms) :: k in keys
  {
    if keys != [] {
      SurvivingMembers(keys[..|keys| - 1], ms[..|ms| - 1]);
    }
  }

  /** Dropping what is gone keeps the order of the rest. */
  lemma {:induction false} SurvivingOrder(keys: seq<string>, ms: seq<Merge>, x: string, y: string)
    requires |ms| == |keys| && x in Surviving(keys, ms) && y in Surviving(keys, ms) && Distinct(keys)
    ensures Before(Surviving(keys, ms), x, y) <==> Before(keys, x, y)
  {
    var n := |keys| - 1;
    var before, last := Surviving(keys[..n], ms[..n]), keys[n];
    SurvivingMembers(keys[..n], ms[..n]);
    assert keys == keys[..n] + [last];
    FirstOfAppend(keys[..n], [last], x);
    FirstOfAppend(keys[..n], [last], y);
    FirstOfAppend(before, [last], x);
    FirstOfAppend(before, [last], y);
    if x in before && y in before {
      SurvivingOrder(keys[..n], ms[..n], x, y);
    }
  }

  /** The ids of a list merged item by item: those of remote, then those that only
      local has, then those that only base has, less the ones that are gone. */
  lemma MergedListOrder(b: Node, l: Node, r: Node, path: string)
    requires b.List? && l.List? && r.List? && Mergeable(b, l, r) && l != b && r != b && l != r
    requires Tidy(b) && Tidy(l) && Tidy(r) && Merged(b, l, r, path).conflicts == []
    ensures
      var keys := Once(Ids(r.items) + Ids(l.items) + Ids(b.items));
      var m := Merged(b, l, r, path).value;
      m.List? && Ids(m.items) == Surviving(keys, ChildMerges(b, l, r, keys, path))
  {
    var keys := AllKeys(b, l, r);
    MergedIdentified(b, l, r, path);
    KeptIds(keys, ChildMerges(b, l, r, keys, path));
  }

  /** The order of two items in a merged list: remote's where remote has both; else
      remote's item first; and local's order where remote has neither. */
  lemma MergedOrderOf(b: Node, l: Node, r: Node, path: string, x: string, y: string)
    requires b.List? && l.List? && r.List? && Mergeable(b, l, r) && l != b && r != b && l != r
    requires Tidy(b) && Tidy(l) && Tidy(r) && Merged(b, l, r, path).conflicts == []
    requires x in Ids(l.items) && y in Ids(l.items) && Merged(b, l, r, path).value.List?
    requires x in Ids(Merged(b, l, r, path).value.items) && y in Ids(Merged(b, l, r, path).value.items)
    ensures Before(Ids(Merged(b, l, r, path).value.items), x, y) <==>
            if y in Ids(r.items) then Before(Ids(r.items), x, y) else x in Ids(r.items) || Before(Ids(l.items), x, y)
  {
    var keys := Once(Ids(r.items) + Ids(l.items) + Ids(b.items));
    MergedListOrder(b, l, r, path);
    OnceExact(Ids(r.items) + Ids(l.items) + Ids(b.items));
    SurvivingOrder(keys, ChildMerges(b, l, r, keys, path), x, y);
    OnceOrder(Ids(r.items) + Ids(l.items) + Ids(b.items), x, y);
    FirstOfAppend(Ids(r.items) + Ids(l.items), Ids(b.items), x);
    FirstOfAppend(Ids(r.items) + Ids(l.items), Ids(b.items), y);
    FirstOfAppend(Ids(r.items), Ids(l.items), x);
    FirstOfAppend(Ids(r.items), Ids(l.items), y);
  }

  /** Two items that local has in the order x, y keep it in the merge if and only
      if remote does not have y, or has both of them in that order. */
  lemma LocalOrderSurvivesIff(b: Node, l: Node, r: Node, path: string, x: string, y: string)
    requires b.List? && l.List? && r.List? && Mergeable(b, l, r) && l != b && r != b && l != r
    requires Tidy(b) && Tidy(l) && Tidy(r) && Merged(b, l, r, path).conflicts == []
    requires Merged(b, l, r, path).value.List? && Before(Ids(l.items), x, y) && y in Ids(l.items)
    requires x in Ids(Merged(b, l, r, path).value.items) && y in Ids(Merged(b, l, r, path).value.items)
    ensures Before(Ids(Merged(b, l, r, path).value.items), x, y) <==> (y in Ids(r.items) ==> Before(Ids(r.items), x, y))
  {
    MergedOrderOf(b, l, r, path, x, y);
  }

  // ----- a lost reordering -----

  /** An item with an id and one other field. */
  function Item(id: string, v: string): Node {
    Record([Entry(ID, Text(id)), Entry("value", Text(v))])
  }

  lemma ItemIdentity(id: string, v: string)
    ensures Identity(Item(id, v)) == Some(id) && Tidy(Item(id, v))
  {
    var fields := Item(id, v).fields;
    assert fields[1..] == [Entry("value", Text(v))] && fields[1..][1..] == [];
    assert |SEMANTIC_ID| == 11 && |ID| == 2 && |"value"| == 5;
    assert Field(fields[1..], SEMANTIC_ID) == Absent;
  }

  lemma TwoItems(p: Node, q: Node, k: string)
    requires Identity(p).Some? && Identity(q).Some? && Identity(p) != Identity(q)
    ensures ItemWith([p, q], k) == if Identity(q) == Some(k) then q else if Identity(p) == Some(k) then p else Absent
    ensures Ids([p, q]) == [Identity(p).value, Identity(q).value]
  {
    assert [p, q][1..] == [q] && [q][1..] == [];
    assert ItemWith([q], k) == if Identity(q) == Some(k) then q else Absent;
    assert Ids([q]) == [Identity(q).value];
  }

  lemma OneSided(b: Node, l: Node, r: Node, path: string)
    requires l == b
    ensures Merged(b, l, r, path).value == r && Merged(b, l, r, path).local == []
        && Merged(b, l, r, path).conflicts == []
  {
  }

  lemma {:induction false} QuietMerges(ms: seq<Merge>)
    requires forall i | 0 <= i < |ms| :: ms[i].local == [] && ms[i].conflicts == []
    ensures Locals(ms) == [] && Conflicts(ms) == []
  {
    if ms != [] {
      QuietMerges(ms[..|ms| - 1]);
    }
  }

  /** Order is not merged. Where local swaps two items and remote changes one of
      them, the merge is the remote list: the swap is gone, without a conflict and
      without a local change being reported. */
  lemma ReorderingIsLost(x: string, y: string, v: string, v': string, path: string)
    requires x != y && v != v'
    ensures
      var p, q, q' := Item(x, v), Item(y, v), Item(y, v');
      var m := Merged(List([p, q]), List([q, p]), List([p, q']), path);
      m.conflicts == [] && m.local == [] && Ids(m.value.items) == [x, y] && Ids([q, p]) == [y, x]
  {
    var p, q, q' := Item(x, v), Item(y, v), Item(y, v');
    var b, l, r := List([p, q]), List([q, p]), List([p, q']);
    SwapFacts(x, y, v, v');
    var keys := AllKeys(b, l, r);
    var ms := ChildMerges(b, l, r, keys, path);
    forall i | 0 <= i < |ms| ensures ms[i].local == [] && ms[i].conflicts == [] {
      ChildMergesAt(b, l, r, keys, path, i);
      SwappedItems(x, y, v, keys[i]);
      OneSided(Child(b, keys[i]), Child(l, keys[i]), Child(r, keys[i]), path + "/" + keys[i]);
    }
    QuietMerges(ms);
    SwapOrder(x, y, v, v', path);
  }

  lemma SwappedItems(x: string, y: string, v: string, k: string)
    requires x != y
    ensures ItemWith([Item(x, v), Item(y, v)], k) == ItemWith([Item(y, v), Item(x, v)], k)
  {
    ItemIdentity(x, v);
    ItemIdentity(y, v);
    TwoItems(Item(x, v), Item(y, v), k);
    TwoItems(Item(y, v), Item(x, v), k);
  }

  lemma SwapFacts(x: string, y: string, v: string, v': string)
    requires x != y && v != v'
    ensures
      var p, q, q' := Item(x, v), Item(y, v), Item(y, v');
      var b, l, r := List([p, q]), List([q, p]), List([p, q']);
      && Mergeable(b, l, r) && l != b && r != b && l != r && Tidy(b) && Tidy(l) && Tidy(r)
      && Ids(b.items) == [x, y] && Ids(l.items) == [y, x] && Ids(r.items) == [x, y]
  {
    var p, q, q' := Item(x, v), Item(y, v), Item(y, v');
    ItemIdentity(x, v);
    ItemIdentity(y, v);
    ItemIdentity(y, v');
    TwoItems(p, q, x);
    TwoItems(q, p, x);
    TwoItems(p, q', x);
    assert p.fields[0].value == Text(x) && q.fields[0].value == Text(y) && q.fields[1].value != q'.fields[1].value;
    assert [p, q][0] == p && [q, p][0] == q && [p, q'][1] == q';
    AllIdentifiable([p, q], [q, p], [p, q']);
  }

  lemma SwapOrder(x: string, y: string, v: string, v': string, path: string)
    requires x != y && v != v'
    requires Merged(List([Item(x, v), Item(y, v)]), List([Item(y, v), Item(x, v)]), List([Item(x, v), Item(y, v')]),
                    path).conflicts == []
    ensures
      var m := Merged(List([Item(x, v), Item(y, v)]), List([Item(y, v), Item(x, v)]), List([Item(x, v), Item(y, v')]),
                      path);
      m.value.List? && Ids(m.value.items) == [x, y]
  {
    var b, l, r := List([Item(x, v), Item(y, v)]), List([Item(y, v), Item(x, v)]), List([Item(x, v), Item(y, v')]);
    SwapFacts(x, y, v, v');
    MergedListOrder(b, l, r, path);
    var keys := Once(Ids(r.items) + Ids(l.items) + Ids(b.items));
    SwapKeys(x, y);
    assert keys == [x, y];
    ItemIdentity(x, v);
    ItemIdentity(y, v');
    TwoItems(Item(x, v), Item(y, v'), x);
    TwoItems(Item(x, v), Item(y, v'), y);
    SwappedItems(x, y, v, x);
    SwappedItems(x, y, v, y);
    var ms := ChildMerges(b, l, r, keys, path);
    ChildMergesAt(b, l, r, keys, path, 0);
    ChildMergesAt(b, l, r, keys, path, 1);
    OneSided(Child(b, x), Child(l, x), Child(r, x), path + "/" + x);
    OneSided(Child(b, y), Child(l, y), Child(r, y), path + "/" + y);
    assert keys[..1] == [x] && keys[..1][..0] == [];
    assert Surviving(keys[..1], ms[..1]) == [x];
  }

  lemma SwapKeys(x: string, y: string)
    requires x != y
    ensures Once([x, y] + [y, x] + [x, y]) == [x, y]
  {
    OnceStep([], x);
    OnceStep([x], y);
    assert [] + [x] == [x] && [x] + [y] == [x, y];
    OnceMore([x, y], [y, x] + [x, y]);
    assert [x, y] + [y, x] + [x, y] == [x, y] + ([y, x] + [x, y]);
  }

  lemma {:induction false} OnceMore(ks: seq<string>, more: seq<string>)
    requires forall k | k in more :: k in ks
    ensures Once(ks + more) == Once(ks)
  {
    if more == [] {
      assert ks + more == ks;
    } else {
      var init, last := more[..|more| - 1], more[|more| - 1];
      OnceMore(ks, init);
      OnceStep(ks + init, last);
      assert ks + more == ks + init + [last];
    }
  }

  lemma OnceStep(ks: seq<string>, k: string)
    ensures Once(ks + [k]) == if k in ks then Once(ks) else Once(ks) + [k]
  {
    assert (ks + [k])[..|ks|] == ks;
    OnceExact(ks);
  }

  // ----- the reported paths -----

  datatype Kind = LocalChange | RemoteChange | Conflict

  function PathsOf(m: Merge, kind: Kind): seq<string> {
    match kind
    case LocalChange => m.local
    case RemoteChange => m.remote
    case Conflict => m.conflicts
  }

  /** What the three values at an address have to be for its path to be reported. */
  predicate Concerns(b: Node, l: Node, r: Node, kind: Kind) {
    match kind
    case LocalChange => l != b
    case RemoteChange => r != b
    case Conflict => l != b && r != b && l != r
  }

  /** The merge looks no further than this address: on the way to it everything is
      undecided and mergeable, and the address itself is not. */
  predicate Stops(b: Node, l: Node, r: Node, a: seq<string>)
    decreases |a|
  {
    if a == [] then Decided(b, l, r) || !Mergeable(b, l, r)
    else
      && !Decided(b, l, r) && Mergeable(b, l, r)
      && Stops(Child(b, a[0]), Child(l, a[0]), Child(r, a[0]), a[1..])
  }

  /** The path that names an address. */
  function PathTo(path: string, a: seq<string>): string
    decreases |a|
  {
    if a == [] then path else PathTo(path + "/" + a[0], a[1..])
  }

  /** The paths of the merges of all children. */
  function Joining(ms: seq<Merge>, kind: Kind): seq<string> {
    match kind
    case LocalChange => Locals(ms)
    case RemoteChange => Remotes(ms)
    case Conflict => Conflicts(ms)
  }

  lemma JoiningStep(ms: seq<Merge>, kind: Kind)
    requires ms != []
    ensures Joining(ms, kind) == Joining(ms[..|ms| - 1], kind) + PathsOf(ms[|ms| - 1], kind)
  {
  }

  lemma {:induction false} JoinedFrom(ms: seq<Merge>, kind: Kind, p: string) returns (i: nat)
    requires p in Joining(ms, kind)
    ensures i < |ms| && p in PathsOf(ms[i], kind)
  {
    JoiningStep(ms, kind);
    if p in PathsOf(ms[|ms| - 1], kind) {
      i := |ms| - 1;
    } else {
      i := JoinedFrom(ms[..|ms| - 1], kind, p);
    }
  }

  lemma {:induction false} JoinedInto(ms: seq<Merge>, kind: Kind, p: string, i: nat)
    requires i < |ms| && p in PathsOf(ms[i], kind)
    ensures p in Joining(ms, kind)
  {
    JoiningStep(ms, kind);
    if i < |ms| - 1 {
      JoinedInto(ms[..|ms| - 1], kind, p, i);
    }
  }

  lemma UndecidedPaths(b: Node, l: Node, r: Node, path: string, kind: Kind)
    requires !Decided(b, l, r) && Mergeable(b, l, r)
    ensures PathsOf(Merged(b, l, r, path), kind) == Joining(ChildMerges(b, l, r, AllKeys(b, l, r), path), kind)
  {
  }

  lemma ChildPathFrom(b: Node, l: Node, r: Node, path: string, kind: Kind, p: string) returns (k: string)
    requires !Decided(b, l, r) && Mergeable(b, l, r) && p in PathsOf(Merged(b, l, r, path), kind)
    ensures p in PathsOf(MergedAt(b, l, r, k, path), kind)
  {
    var keys := AllKeys(b, l, r);
    UndecidedPaths(b, l, r, path, kind);
    var i := JoinedFrom(ChildMerges(b, l, r, keys, path), kind, p);
    ChildMergesAt(b, l, r, keys, path, i);
    k := keys[i];
  }

  lemma ChildPathInto(b: Node, l: Node, r: Node, path: string, kind: Kind, p: string, k: string)
    requires !Decided(b, l, r) && Mergeable(b, l, r) && k in AllKeys(b, l, r)
    requires p in PathsOf(MergedAt(b, l, r, k, path), kind)
    ensures p in PathsOf(Merged(b, l, r, path), kind)
  {
    var keys := AllKeys(b, l, r);
    var i :| 0 <= i < |keys| && keys[i] == k;
    ChildMergesAt(b, l, r, keys, path, i);
    UndecidedPaths(b, l, r, path, kind);
    JoinedInto(ChildMerges(b, l, r, keys, path), kind, p, i);
  }

  /** The values that are merged as one report their own path, if any. */
  lemma OwnPath(b: Node, l: Node, r: Node, path: string, kind: Kind)
    requires Decided(b, l, r) || !Mergeable(b, l, r)
    ensures PathsOf(Merged(b, l, r, path), kind) == if Concerns(b, l, r, kind) then [path] else []
  {
  }

  lemma KeyOfConcern(b: Node, l: Node, r: Node, kind: Kind, a: seq<string>)
    requires a != [] && Concerns(At(b, a), At(l, a), At(r, a), kind)
    ensures a[0] in AllKeys(b, l, r)
  {
    if a[0] !in AllKeys(b, l, r) {
      NoSuchChild(b, l, r, a[0]);
    }
  }

  lemma {:induction false} ReportedIfStops(b: Node, l: Node, r: Node, path: string, kind: Kind, a: seq<string>)
    requires Stops(b, l, r, a) && Concerns(At(b, a), At(l, a), At(r, a), kind)
    ensures PathTo(path, a) in PathsOf(Merged(b, l, r, path), kind)
    decreases |a|
  {
    if a == [] {
      OwnPath(b, l, r, path, kind);
    } else {
      var k := a[0];
      ReportedIfStops(Child(b, k), Child(l, k), Child(r, k), path + "/" + k, kind, a[1..]);
      KeyOfConcern(b, l, r, kind, a);
      ChildPathInto(b, l, r, path, kind, PathTo(path, a), k);
    }
  }

  lemma {:induction false} StopOfReported(b: Node, l: Node, r: Node, path: string, kind: Kind, p: string)
    returns (a: seq<string>)
    requires p in PathsOf(Merged(b, l, r, path), kind)
    ensures Stops(b, l, r, a) && Concerns(At(b, a), At(l, a), At(r, a), kind) && p == PathTo(path, a)
    decreases Size(b) + Size(l) + Size(r)
  {
    if Decided(b, l, r) || !Mergeable(b, l, r) {
      OwnPath(b, l, r, path, kind);
      a := [];
    } else {
      var k := ChildPathFrom(b, l, r, path, kind, p);
      ChildrenSmaller(b, l, r, k);
      var rest := StopOfReported(Child(b, k), Child(l, k), Child(r, k), path + "/" + k, kind, p);
      a := [k] + rest;
      assert a[1..] == rest;
    }
  }

  /** A path is reported as a local change, a remote change or a conflict exactly when
      it names an address where the merge stops and local differs from the base,
      remote differs from the base, or all three differ. */
  lemma PathsIff(b: Node, l: Node, r: Node, path: string, kind: Kind, p: string)
    ensures p in PathsOf(Merged(b, l, r, path), kind) <==>
            exists a :: Stops(b, l, r, a) && Concerns(At(b, a), At(l, a), At(r, a), kind) && p == PathTo(path, a)
  {
    if p in PathsOf(Merged(b, l, r, path), kind) {
      var a := StopOfReported(b, l, r, path, kind, p);
    }
    if a :| Stops(b, l, r, a) && Concerns(At(b, a), At(l, a), At(r, a), kind) && p == PathTo(path, a) {
      ReportedIfStops(b, l, r, path, kind, a);
    }
  }

  // ----- names, identities, and what is merged child by child -----

  /** The first field of the name has this value. */
  ghost predicate Holds(fields: seq<Entry>, name: string, v: Node) {
    exists k :: 0 <= k < |fields| && fields[k] == Entry(name, v) && forall i | 0 <= i < k :: fields[i].name != name
  }

  ghost predicate Lacks(fields: seq<Entry>, name: string) {
    forall k | 0 <= k < |fields| :: fields[k].name != name
  }

  lemma HoldsTail(fields: seq<Entry>, name: string, v: Node)
    requires fields != [] && fields[0].name != name
    ensures Holds(fields, name, v) <==> Holds(fields[1..], name, v)
  {
    var rest := fields[1..];
    if Holds(fields, name, v) {
      var k :| 0 <= k < |fields| && fields[k] == Entry(name, v) && forall i | 0 <= i < k :: fields[i].name != name;
      assert rest[k - 1] == Entry(name, v);
    }
    if Holds(rest, name, v) {
      var k :| 0 <= k < |rest| && rest[k] == Entry(name, v) && forall i | 0 <= i < k :: rest[i].name != name;
      assert fields[k + 1] == Entry(name, v);
      assert forall i | 0 < i < k + 1 :: fields[i] == rest[i - 1];
    }
  }

  lemma {:induction false} FieldIff(fields: seq<Entry>, name: string, v: Node)
    ensures Field(fields, name) == v <==> Holds(fields, name, v) || (Lacks(fields, name) && v == Absent)
  {
    if fields != [] {
      if fields[0].name == name {
        assert fields[0].value == v ==> fields[0] == Entry(name, v);
      } else {
        FieldIff(fields[1..], name, v);
        HoldsTail(fields, name, v);
        assert forall i | 0 < i < |fields| :: fields[i] == fields[1..][i - 1];
      }
    }
  }

  /** No name of the kind, or null in its place. */
  ghost predicate Unnamed(fields: seq<Entry>, name: string) {
    Lacks(fields, name) || Holds(fields, name, Null) || Holds(fields, name, Absent)
  }

  /** An item is identified by the text of its `semantic_id`; by the text of its `id`
      when it has no `semantic_id` or null there; and by nothing else. */
  lemma IdentityIff(n: Node, s: string)
    ensures Identity(n) == Some(s) <==>
            n.Record? && (Holds(n.fields, "semantic_id", Text(s))
                          || (Unnamed(n.fields, "semantic_id") && Holds(n.fields, "id", Text(s))))
  {
    if n.Record? {
      FieldIff(n.fields, "semantic_id", Text(s));
      FieldIff(n.fields, "semantic_id", Null);
      FieldIff(n.fields, "semantic_id", Absent);
      FieldIff(n.fields, "id", Text(s));
    }
  }

  /** The last item with the identity. */
  ghost predicate LastWith(items: seq<Node>, id: string, n: Node) {
    exists k :: 0 <= k < |items| && items[k] == n && Identity(n) == Some(id)
             && forall i | k < i < |items| :: Identity(items[i]) != Some(id)
  }

  /** Of several items with one identity the last one stands for it. */
  lemma {:induction false} ItemIff(items: seq<Node>, id: string, n: Node)
    ensures ItemWith(items, id) == n <==>
            LastWith(items, id, n) || (n == Absent && forall i | 0 <= i < |items| :: Identity(items[i]) != Some(id))
  {
    if items != [] {
      var rest := items[1..];
      ItemIff(rest, id, n);
      ItemIff(rest, id, ItemWith(rest, id));
      LastWithTail(items, id, n);
      assert forall i | 0 < i < |items| :: items[i] == rest[i - 1];
    }
  }

  lemma LastWithTail(items: seq<Node>, id: string, n: Node)
    requires items != []
    ensures LastWith(items, id, n) <==>
            LastWith(items[1..], id, n)
            || (items[0] == n && Identity(n) == Some(id)
                && forall i | 0 < i < |items| :: Identity(items[i]) != Some(id))
  {
    var rest := items[1..];
    if LastWith(items, id, n) {
      var k :| 0 <= k < |items| && items[k] == n && Identity(n) == Some(id)
            && forall i | k < i < |items| :: Identity(items[i]) != Some(id);
      if k > 0 {
        assert rest[k - 1] == n && forall i | k - 1 < i < |rest| :: rest[i] == items[i + 1];
      }
    }
    if LastWith(rest, id, n) {
      var k :| 0 <= k < |rest| && rest[k] == n && Identity(n) == Some(id)
            && forall i | k < i < |rest| :: Identity(rest[i]) != Some(id);
      assert items[k + 1] == n && forall i | k + 1 < i < |items| :: items[i] == rest[i - 1];
    }
  }

  ghost predicate AllIdentified(n: Node)
    requires n.List?
  {
    forall i | 0 <= i < |n.items| :: Identity(n.items[i]).Some?
  }

  /** Three records are merged field by field, and three lists item by item when every
      item of them has an identity; nothing else is. */
  lemma MergeableIff(b: Node, l: Node, r: Node)
    ensures Mergeable(b, l, r) <==>
            || (b.Record? && l.Record? && r.Record?)
            || (b.List? && l.List? && r.List? && AllIdentified(b) && AllIdentified(l) && AllIdentified(r))
  {
    if b.List? && l.List? && r.List? {
      var all := b.items + l.items + r.items;
      if Identifiable(all) {
        assert forall i | 0 <= i < |b.items| :: b.items[i] == all[i];
        assert forall i | 0 <= i < |l.items| :: l.items[i] == all[|b.items| + i];
        assert forall i | 0 <= i < |r.items| :: r.items[i] == all[|b.items| + |l.items| + i];
      }
    }
  }

  /** What is not merged child by child, and differs three ways, is remote's and a
      conflict at its own path. */
  lemma OthersClash(b: Node, l: Node, r: Node, path: string)
    requires l != b && r != b && l != r && !Mergeable(b, l, r)
    ensures Merged(b, l, r, path).value == r && Merged(b, l, r, path).conflicts == [path]
    ensures Merged(b, l, r, path).local == [path] && Merged(b, l, r, path).remote == [path]
  {
  }

  // ----- the order of merged fields -----

  lemma {:induction false} KeptNamesAre(keys: seq<string>, ms: seq<Merge>)
    requires |ms| == |keys|
    ensures Names(Kept(keys, ms)) == Surviving(keys, ms)
  {
    if keys != [] {
      var n := |keys| - 1;
      KeptNamesAre(keys[..n], ms[..n]);
      FieldAppend(Kept(keys[..n], ms[..n]), Entry(keys[n], ms[n].value), "");
    }
  }

  lemma {:induction false} SurvivingSorted(keys: seq<string>, ms: seq<Merge>)
    requires |ms| == |keys| && Sorted(keys, Same, StringLess)
    ensures Sorted(Surviving(keys, ms), Same, StringLess)
  {
    if keys != [] {
      var n := |keys| - 1;
      var init := Surviving(keys[..n], ms[..n]);
      SurvivingSorted(keys[..n], ms[..n]);
      SurvivingMembers(keys[..n], ms[..n]);
      forall i | 0 <= i < |init| ensures !StringLess(keys[n], init[i]) {
        assert init[i] in keys[..n];
        var k :| 0 <= k < n && keys[k] == init[i];
        assert !StringLess(Same(keys[n]), Same(keys[k]));
      }
    }
  }

  /** A record merged field by field has its fields in the order of their names. */
  lemma MergedFieldsSorted(b: Node, l: Node, r: Node, path: string)
    requires b.Record? && l.Record? && r.Record? && !Decided(b, l, r)
    ensures
      var m := Merged(b, l, r, path).value;
      m.Record? && Sorted(Names(m.fields), Same, StringLess)
  {
    var keys := AllKeys(b, l, r);
    StringLessStrictTotal();
    SortSorted(Once(KeysOf(b) + KeysOf(l) + KeysOf(r)), Same, StringLess);
    KeptNamesAre(keys, ChildMerges(b, l, r, keys, path));
    SurvivingSorted(keys, ChildMerges(b, l, r, keys, path));
  }

  // ----- the analysis -----

  /** Each path once, in order. */
  function Listed(paths: seq<string>): seq<string> {
    Sort(Once(paths), Same, StringLess)
  }

  lemma ListedExact(paths: seq<string>)
    ensures Distinct(Listed(paths)) && Sorted(Listed(paths), Same, StringLess)
    ensures forall p :: p in Listed(paths) <==> p in paths
  {
    OnceExact(paths);
    SortedKeysDistinct(Once(paths));
    StringLessStrictTotal();
    SortSorted(Once(paths), Same, StringLess);
  }

  datatype Analysis = Analysis(conflictPaths: seq<string>, localChangePaths: seq<string>,
                               remoteChangePaths: seq<string>,
                               merged: Option<Node>)

  /** The paths of the addresses where the merge stops and that are of this kind,
      once each and in order. */
  ghost predicate Reports(paths: seq<string>, b: Node, l: Node, r: Node, kind: Kind) {
    && Distinct(paths) && Sorted(paths, Same, StringLess)
    && forall p :: p in paths <==>
      exists a :: Stops(b, l, r, a) && Concerns(At(b, a), At(l, a), At(r, a), kind) && p == PathTo("strategy", a)
  }

  lemma ListedReports(b: Node, l: Node, r: Node, kind: Kind)
    ensures Reports(Listed(PathsOf(Merged(b, l, r, "strategy"), kind)), b, l, r, kind)
  {
    ListedExact(PathsOf(Merged(b, l, r, "strategy"), kind));
    forall p {
      PathsIff(b, l, r, "strategy", kind, p);
    }
  }

  /** `analyzeBuilderRevisionConflict`; a direct conflict is one with conflict paths. */
  method Analyze(b: Node, l: Node, r: Node) returns (a: Analysis)
    ensures Reports(a.conflictPaths, b, l, r, Conflict)
    ensures Reports(a.localChangePaths, b, l, r, LocalChange)
    ensures Reports(a.remoteChangePaths, b, l, r, RemoteChange)
    ensures a.merged.Some? <==> a.conflictPaths == []
    ensures a.merged.Some? <==> forall address :: !ClashesAt(b, l, r, address)
    ensures a.merged.Some? && Tidy(b) && Tidy(l) && Tidy(r) ==>
              forall address :: Reconciles(At(b, address), At(l, address), At(r, address), At(a.merged.value, address))
  {
    var m := MergeValue(b, l, r, "strategy");
    ConflictIff(b, l, r, "strategy");
    ListedExact(m.conflicts);
    ListedReports(b, l, r, Conflict);
    ListedReports(b, l, r, LocalChange);
    ListedReports(b, l, r, RemoteChange);
    var merged := if m.conflicts == [] then Some(m.value) else None;
    if m.conflicts != [] {
      assert m.conflicts[0] in Listed(m.conflicts);
    } else if Tidy(b) && Tidy(l) && Tidy(r) {
      forall address
        ensures Reconciles(At(b, address), At(l, address), At(r, address), At(m.value, address))
      {
        MergeReconciles(b, l, r, "strategy", address);
      }
    }
    a := Analysis(Listed(m.conflicts), Listed(m.local), Listed(m.remote), merged);
  }
}
