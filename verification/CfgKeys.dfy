/** What a load does to each key on its own, and when exactly it goes through. */
module CfgKeys {
  import opened Wrappers
  import opened CfgMerge

  // ---- merging a series of values ----

  /** Placeholders at the beginning count for nothing. */
  function Significant(vs: seq<Value>): seq<Value> {
    if vs == [] || vs[0] != Null then vs else Significant(vs[1..])
  }

  /** Nothing, lists only, compatible scalars only, or a single value of any type. */
  ghost predicate Mergeable(vs: seq<Value>) {
    || |vs| <= 1
    || (forall v :: v in vs ==> v.List?)
    || ((forall v :: v in vs ==> Scalar(v)) && Compatible(vs))
  }

  ghost predicate Outcomes(vs: seq<Value>, r: Value) {
    if vs == [] then r == Null
    else if |vs| == 1 then r == vs[0]
    else if vs[0].List? then (forall i :: 0 <= i < |vs| ==> vs[i].List?) && r == List(Concat(vs))
    else Decides(vs, r)
  }

  lemma {:induction false} MergeAllFrom(vs: seq<Value>, ws: seq<Value>)
    requires MergeAll(vs) == MergeAll([])
    ensures MergeAll(vs + ws) == MergeAll(ws)
  {
    if ws == [] {
      assert vs + ws == vs;
    } else {
      var n := |ws| - 1;
      MergeAllFrom(vs, ws[..n]);
      assert (vs + ws)[..|vs + ws| - 1] == vs + ws[..n];
    }
  }

  lemma {:induction false} SignificantMerges(vs: seq<Value>)
    ensures MergeAll(vs) == MergeAll(Significant(vs))
    ensures Significant(vs) != [] ==> Significant(vs)[0] != Null
  {
    if vs != [] && vs[0] == Null {
      SignificantMerges(vs[1..]);
      assert [Null][..0] == [];
      assert MergeAll([Null]) == MergeAll([]);
      MergeAllFrom([Null], vs[1..]);
      assert vs == [Null] + vs[1..];
    }
  }

  /** Values of any types in turn: leading placeholders are skipped; then everything is of one kind, lists or
      compatible scalars, or there is only one value. */
  lemma MergesExactly(vs: seq<Value>)
    ensures MergeAll(vs).Ok? <==> Mergeable(Significant(vs))
    ensures MergeAll(vs).Ok? ==> Outcomes(Significant(vs), MergeAll(vs).value)
  {
    hide Significant, Mergeable, Outcomes, MergeAll;
    SignificantMerges(vs);
    SignificantExactly(Significant(vs));
  }

  lemma {:induction false} SignificantExactly(vs: seq<Value>)
    requires vs != [] ==> vs[0] != Null
    ensures MergeAll(vs).Ok? <==> Mergeable(vs)
    ensures MergeAll(vs).Ok? ==> Outcomes(vs, MergeAll(vs).value)
  {
    if |vs| <= 1 {
      OneOrNone(vs);
    } else if vs[0].List? {
      ListsExactly(vs);
    } else if Scalar(vs[0]) {
      ScalarsExactly(vs);
    } else {
      OtherFails(vs);
    }
  }

  lemma OneOrNone(vs: seq<Value>)
    requires |vs| <= 1
    ensures MergeAll(vs) == Ok(if vs == [] then Null else vs[0])
  {
    if vs != [] { assert vs[..0] == []; }
  }

  /** A list takes lists only. */
  lemma {:induction false} ListsExactly(vs: seq<Value>)
    requires vs != [] && vs[0].List?
    ensures MergeAll(vs).Ok? <==> forall v :: v in vs ==> v.List?
    ensures MergeAll(vs).Ok? ==> MergeAll(vs) == Ok(List(Concat(vs)))
    ensures MergeAll(vs).Err? ==> MergeAll(vs) == Err(NotAList)
    ensures |vs| > 1 ==> !(forall v :: v in vs ==> Scalar(v))
  {
    assert vs[0] in vs;
    if |vs| == 1 {
      OneOrNone(vs);
      ListsMerge(vs);
    } else {
      var n := |vs| - 1;
      ListsExactly(vs[..n]);
      assert vs == vs[..n] + [vs[n]];
      if forall v :: v in vs ==> v.List? { ListsMerge(vs); }
    }
  }

  /** A scalar takes scalars only. */
  lemma {:induction false} ScalarsExactly(vs: seq<Value>)
    requires vs != [] && Scalar(vs[0])
    ensures MergeAll(vs).Ok? <==> (forall v :: v in vs ==> Scalar(v)) && Compatible(vs)
    ensures MergeAll(vs).Ok? ==> Scalar(MergeAll(vs).value) && Decides(vs, MergeAll(vs).value)
    ensures |vs| > 1 ==> !(forall v :: v in vs ==> v.List?)
    ensures |vs| == 1 ==> MergeAll(vs) == Ok(vs[0])
  {
    hide Scalar, Compatible, Decides, MergeAll;
    FirstMember(vs);
    if |vs| == 1 { OneOrNone(vs); }
    FirstIsScalar(vs);
    if forall v :: v in vs ==> Scalar(v) {
      ScalarsMerge(vs);
      if MergeAll(vs).Ok? { DecidesScalar(vs, MergeAll(vs).value); }
    } else {
      NotAllScalars(vs);
    }
  }

  lemma FirstIsScalar(vs: seq<Value>)
    requires vs != [] && Scalar(vs[0])
    ensures !(forall v :: v in vs ==> v.List?)
  {
    assert vs[0] in vs;
  }

  lemma DecidesScalar(vs: seq<Value>, r: Value)
    requires vs != [] && Decides(vs, r) && forall v :: v in vs ==> Scalar(v)
    ensures Scalar(r)
  {
    hide Scalar;
    FirstMember(vs);
  }

  lemma {:induction false} NotAllScalars(vs: seq<Value>)
    requires vs != [] && Scalar(vs[0]) && !(forall v :: v in vs ==> Scalar(v))
    ensures MergeAll(vs).Err?
  {
    var n := |vs| - 1;
    assert vs == vs[..n] + [vs[n]];
    if n == 0 { assert false; }
    if forall v :: v in vs[..n] ==> Scalar(v) {
      ScalarsMerge(vs[..n]);
      if MergeAll(vs[..n]).Ok? {
        DecidesScalar(vs[..n], MergeAll(vs[..n]).value);
        ScalarTakes(MergeAll(vs[..n]).value, vs[n]);
      }
    } else {
      hide Scalar;
      NotAllScalars(vs[..n]);
    }
  }

  lemma ScalarTakes(was: Value, now: Value)
    requires Scalar(was) && !Scalar(now)
    ensures Merge(was, now).Err?
  {
  }

  /** A value of another type takes nothing more. */
  lemma {:induction false} OtherFails(vs: seq<Value>)
    requires |vs| > 1 && !Scalar(vs[0]) && !vs[0].List? && vs[0] != Null
    ensures MergeAll(vs).Err? && !Mergeable(vs)
  {
    assert vs[0] in vs;
    var n := |vs| - 1;
    if n == 1 { OneOrNone(vs[..n]); } else { OtherFails(vs[..n]); }
  }

  // ---- one file ----

  /** What merging more values makes of a value. */
  function MergeOn(was: Value, vs: seq<Value>): Result<Value> {
    if vs == [] then Ok(was)
    else
      match MergeOn(was, vs[..|vs| - 1])
      case Ok(v) => Merge(v, vs[|vs| - 1])
      case Err(e) => Err(e)
  }

  lemma {:induction false} MergeOnAll(before: seq<Value>, vs: seq<Value>)
    ensures MergeAll(before + vs) == match MergeAll(before) case Ok(v) => MergeOn(v, vs) case Err(e) => Err(e)
  {
    if vs == [] {
      assert before + vs == before;
    } else {
      var n := |vs| - 1;
      MergeOnAll(before, vs[..n]);
      assert (before + vs)[..|before + vs| - 1] == before + vs[..n];
    }
  }

  lemma MergeOnMore(was: Value, vs: seq<Value>, v: Value)
    ensures MergeOn(was, vs + [v]) == match MergeOn(was, vs) case Ok(w) => Merge(w, v) case Err(e) => Err(e)
  {
    assert (vs + [v])[..|vs|] == vs;
  }

  lemma {:induction false} MergeOnFails(was: Value, vs: seq<Value>, ws: seq<Value>)
    ensures MergeOn(was, vs).Err? ==> MergeOn(was, vs + ws) == MergeOn(was, vs)
  {
    if ws == [] {
      assert vs + ws == vs;
    } else {
      var n := |ws| - 1;
      MergeOnFails(was, vs, ws[..n]);
      assert (vs + ws)[..|vs + ws| - 1] == vs + ws[..n];
    }
  }

  /** The values under a key, in the order of the entries. */
  function Under(entries: seq<(string, Value)>, key: string): seq<Value> {
    if entries == [] then []
    else
      var n := |entries| - 1;
      Under(entries[..n], key) + if entries[n].0 == key then [entries[n].1] else []
  }

  function Get(values: Values, key: string): Value {
    if key in values then values[key] else Null
  }

  /** Keys that a load merges: not the includes, and not what the command line has set. */
  predicate Merged(key: string, argKeys: set<string>) {
    key != "import_cfgs" && key !in argKeys
  }

  /** An entry of the right form. */
  predicate WellFormed(key: string, v: Value, isFirst: bool, argKeys: set<string>) {
    key in argKeys || ((key == "import_cfgs" || key == "use_cfgs" ==> v.List?) && (key == "use_cfgs" ==> isFirst))
  }

  /** All entries are of the right form and the values under each key can be merged. */
  ghost predicate EntriesGo(target: Values, entries: seq<(string, Value)>, isFirst: bool, argKeys: set<string>) {
    && (forall i :: 0 <= i < |entries| ==> WellFormed(entries[i].0, entries[i].1, isFirst, argKeys))
    && forall key :: Merged(key, argKeys) ==> MergeOn(Get(target, key), Under(entries, key)).Ok?
  }

  /** Every key holds what merging the values under it makes of its value before, and is there exactly if it was or
      has such a value. */
  ghost predicate EntriesGive(target: Values, entries: seq<(string, Value)>, argKeys: set<string>, values: Values) {
    forall key ::
      if Merged(key, argKeys) then
        && (key in values <==> key in target || Under(entries, key) != [])
        && MergeOn(Get(target, key), Under(entries, key)) == Ok(Get(values, key))
      else (key in values <==> key in target) && Get(values, key) == Get(target, key)
  }

  /** The names a file includes, before wildcards are expanded. */
  function Imports(entries: seq<(string, Value)>, argKeys: set<string>): seq<Value> {
    if "import_cfgs" in argKeys then [] else Items(Under(entries, "import_cfgs"))
  }

  function Items(vs: seq<Value>): seq<Value> {
    if vs == [] then [] else Items(vs[..|vs| - 1]) + if vs[|vs| - 1].List? then vs[|vs| - 1].items else []
  }

  lemma {:induction false} EntriesExactly(
    target: Values, entries: seq<(string, Value)>, isFirst: bool, argKeys: set<string>)
    ensures var r := LoadEntries(target, entries, isFirst, argKeys);
            && (r.Ok? <==> EntriesGo(target, entries, isFirst, argKeys))
            && (r.Ok? ==> EntriesGive(target, entries, argKeys, r.value.0) && r.value.1 == Imports(entries, argKeys))
  {
    hide EntriesGo, EntriesGive, LoadEntry;
    if entries == [] {
      NoEntriesGo(target, isFirst, argKeys);
    } else {
      var front, entry := entries[..|entries| - 1], entries[|entries| - 1];
      EntriesExactly(target, front, isFirst, argKeys);
      assert entries == front + [entry];
      var r := LoadEntries(target, front, isFirst, argKeys);
      if r.Ok? {
        OneEntryMore(target, front, entry, isFirst, argKeys, r.value.0, r.value.1);
      } else {
        FrontFails(target, front, entry, isFirst, argKeys);
      }
    }
  }

  lemma NoEntriesGo(target: Values, isFirst: bool, argKeys: set<string>)
    ensures EntriesGo(target, [], isFirst, argKeys) && EntriesGive(target, [], argKeys, target)
    ensures Imports([], argKeys) == []
  {
  }

  lemma UnderMore(entries: seq<(string, Value)>, entry: (string, Value), key: string)
    ensures Under(entries + [entry], key) ==
            if entry.0 == key then Under(entries, key) + [entry.1] else Under(entries, key)
  {
    assert (entries + [entry])[..|entries|] == entries;
  }

  lemma FrontFails(target: Values, front: seq<(string, Value)>, entry: (string, Value), isFirst: bool,
                   argKeys: set<string>)
    requires !EntriesGo(target, front, isFirst, argKeys)
    ensures !EntriesGo(target, front + [entry], isFirst, argKeys)
  {
    hide MergeOn, Under, WellFormed;
    var all := front + [entry];
    if i :| 0 <= i < |front| && !WellFormed(front[i].0, front[i].1, isFirst, argKeys) {
      assert all[i] == front[i];
    } else {
      var key :| Merged(key, argKeys) && MergeOn(Get(target, key), Under(front, key)).Err?;
      UnderMore(front, entry, key);
      MergeOnFails(Get(target, key), Under(front, key), [entry.1]);
    }
  }

  lemma OneEntryMore(target: Values, front: seq<(string, Value)>, entry: (string, Value), isFirst: bool,
                     argKeys: set<string>, values: Values, imports: seq<Value>)
    requires EntriesGo(target, front, isFirst, argKeys) && EntriesGive(target, front, argKeys, values)
    requires imports == Imports(front, argKeys)
    ensures var r := LoadEntry(values, imports, entry, isFirst, argKeys);
            && (r.Ok? <==> EntriesGo(target, front + [entry], isFirst, argKeys))
            && (r.Ok? ==> EntriesGive(target, front + [entry], argKeys, r.value.0)
                          && r.value.1 == Imports(front + [entry], argKeys))
  {
    hide EntriesGo, EntriesGive, Imports;
    var r := LoadEntry(values, imports, entry, isFirst, argKeys);
    if r.Ok? {
      EntryGoes(target, front, entry, isFirst, argKeys, values, imports);
      EntryGives(target, front, entry, isFirst, argKeys, values, imports);
    } else {
      EntryStops(target, front, entry, isFirst, argKeys, values, imports);
    }
  }

  lemma EntryGoes(target: Values, front: seq<(string, Value)>, entry: (string, Value), isFirst: bool,
                  argKeys: set<string>, values: Values, imports: seq<Value>)
    requires EntriesGo(target, front, isFirst, argKeys) && EntriesGive(target, front, argKeys, values)
    requires LoadEntry(values, imports, entry, isFirst, argKeys).Ok?
    ensures EntriesGo(target, front + [entry], isFirst, argKeys)
  {
    hide MergeOn, Under, Merge;
    var all, key, v := front + [entry], entry.0, entry.1;
    assert all[|front|] == entry && forall i :: 0 <= i < |front| ==> all[i] == front[i];
    MergeOnMore(Get(target, key), Under(front, key), v);
    forall k | Merged(k, argKeys) ensures MergeOn(Get(target, k), Under(all, k)).Ok? { UnderMore(front, entry, k); }
  }

  lemma EntryGives(target: Values, front: seq<(string, Value)>, entry: (string, Value), isFirst: bool,
                   argKeys: set<string>, values: Values, imports: seq<Value>)
    requires EntriesGive(target, front, argKeys, values) && imports == Imports(front, argKeys)
    requires LoadEntry(values, imports, entry, isFirst, argKeys).Ok?
    ensures var (now, names) := LoadEntry(values, imports, entry, isFirst, argKeys).value;
            EntriesGive(target, front + [entry], argKeys, now) && names == Imports(front + [entry], argKeys)
  {
    hide MergeOn, Under, Merge, Items;
    var all, key, v := front + [entry], entry.0, entry.1;
    MergeOnMore(Get(target, key), Under(front, key), v);
    forall k ensures Under(all, k) == if key == k then Under(front, k) + [v] else Under(front, k) {
      UnderMore(front, entry, k);
    }
    ItemsMore(Under(front, "import_cfgs"), v);
  }

  lemma EntryStops(target: Values, front: seq<(string, Value)>, entry: (string, Value), isFirst: bool,
                   argKeys: set<string>, values: Values, imports: seq<Value>)
    requires EntriesGive(target, front, argKeys, values)
    requires LoadEntry(values, imports, entry, isFirst, argKeys).Err?
    ensures !EntriesGo(target, front + [entry], isFirst, argKeys)
  {
    hide MergeOn, Under, Merge;
    var all, key, v := front + [entry], entry.0, entry.1;
    if WellFormed(key, v, isFirst, argKeys) {
      MergeOnMore(Get(target, key), Under(front, key), v);
      UnderMore(front, entry, key);
      assert Merged(key, argKeys) && MergeOn(Get(target, key), Under(all, key)).Err?;
    } else {
      assert all[|front|] == entry;
    }
  }

  lemma ItemsMore(vs: seq<Value>, v: Value)
    ensures Items(vs + [v]) == Items(vs) + if v.List? then v.items else []
  {
    assert (vs + [v])[..|vs|] == vs;
  }

  /** Why the entries of a file fail. */
  ghost predicate Culprit(target: Values, before: seq<(string, Value)>, entry: (string, Value), isFirst: bool,
                          argKeys: set<string>, e: Error) {
    var (key, v) := entry;
    && key !in argKeys
    && if key == "import_cfgs" then !v.List? && e == ImportsNotAList
       else if key == "use_cfgs" && !isFirst then e == UseCfgsInInclude
       else if key == "use_cfgs" && !v.List? then e == UseCfgsNotAList
       else MergeOn(Get(target, key), Under(before, key) + [v]) == Err(e)
  }

  /** The first entry that does not go decides the error. */
  lemma {:induction false} EntriesFail(
    target: Values, entries: seq<(string, Value)>, isFirst: bool, argKeys: set<string>) returns (n: nat)
    requires LoadEntries(target, entries, isFirst, argKeys).Err?
    ensures n < |entries| && EntriesGo(target, entries[..n], isFirst, argKeys)
    ensures Culprit(target, entries[..n], entries[n], isFirst, argKeys,
                    LoadEntries(target, entries, isFirst, argKeys).error)
  {
    hide EntriesGo, EntriesGive, Culprit, LoadEntry;
    n := |entries| - 1;
    var r := LoadEntries(target, entries[..n], isFirst, argKeys);
    EntriesExactly(target, entries[..n], isFirst, argKeys);
    if r.Err? {
      var front := entries[..n];
      n := EntriesFail(target, front, isFirst, argKeys);
      assert front[..n] == entries[..n];
    } else {
      EntryFails(target, entries[..n], entries[n], isFirst, argKeys, r.value.0, r.value.1);
    }
  }

  lemma EntryFails(target: Values, front: seq<(string, Value)>, entry: (string, Value), isFirst: bool,
                   argKeys: set<string>, values: Values, imports: seq<Value>)
    requires EntriesGive(target, front, argKeys, values)
    requires LoadEntry(values, imports, entry, isFirst, argKeys).Err?
    ensures Culprit(target, front, entry, isFirst, argKeys, LoadEntry(values, imports, entry, isFirst, argKeys).error)
  {
    hide MergeOn, Under, Merge;
    MergeOnMore(Get(target, entry.0), Under(front, entry.0), entry.1);
  }

  // ---- files in order ----

  function EntriesOf(disk: Disk, path: string): seq<(string, Value)> {
    if path in disk.files && disk.files[path].Entries? then disk.files[path].entries else []
  }

  /** The entries of all files in order. */
  function AllEntries(disk: Disk, order: seq<string>): seq<(string, Value)> {
    if order == [] then [] else AllEntries(disk, order[..|order| - 1]) + EntriesOf(disk, order[|order| - 1])
  }

  predicate Readable(disk: Disk, path: string) {
    path in disk.files && disk.files[path].Entries?
  }

  /** The names in a file can be expanded with the values after it. */
  ghost predicate Expands(disk: Disk, initial: Values, order: seq<string>, i: nat)
    requires i < |order|
  {
    ExpandsAfter(disk, initial, AllEntries(disk, order[..i + 1]), Imports(EntriesOf(disk, order[i]), ArgKeys(initial)))
  }

  ghost predicate ExpandsAfter(disk: Disk, initial: Values, entries: seq<(string, Value)>, names: seq<Value>) {
    forall values :: EntriesGive(initial, entries, ArgKeys(initial), values) ==>
      forall name :: name in names ==> disk.expand(name, values).Some?
  }

  ghost predicate FormsFit(disk: Disk, initial: Values, order: seq<string>) {
    forall i, n :: 0 <= i < |order| && 0 <= n < |EntriesOf(disk, order[i])| ==>
      var (key, v) := EntriesOf(disk, order[i])[n];
      WellFormed(key, v, i == 0, ArgKeys(initial))
  }

  /** Files that load in this order: all can be read, their entries are of the right form, the values under each key
      can be merged, and the names can be expanded. */
  ghost predicate OrderGoes(disk: Disk, initial: Values, order: seq<string>) {
    && AllReadable(disk, order) && FormsFit(disk, initial, order)
    && KeysMerge(initial, AllEntries(disk, order)) && AllExpand(disk, initial, order)
  }

  predicate AllReadable(disk: Disk, order: seq<string>) {
    forall i :: 0 <= i < |order| ==> Readable(disk, order[i])
  }

  ghost predicate KeysMerge(initial: Values, entries: seq<(string, Value)>) {
    forall key :: Merged(key, ArgKeys(initial)) ==> MergeOn(Get(initial, key), Under(entries, key)).Ok?
  }

  ghost predicate AllExpand(disk: Disk, initial: Values, order: seq<string>) {
    forall i :: 0 <= i < |order| ==> Expands(disk, initial, order, i)
  }

  lemma {:induction false} UnderConcat(a: seq<(string, Value)>, b: seq<(string, Value)>, key: string)
    ensures Under(a + b, key) == Under(a, key) + Under(b, key)
  {
    if b == [] {
      assert a + b == a;
    } else {
      var n := |b| - 1;
      UnderConcat(a, b[..n], key);
      assert (a + b)[..|a + b| - 1] == a + b[..n];
    }
  }

  lemma {:induction false} MergeOnConcat(was: Value, vs: seq<Value>, ws: seq<Value>)
    ensures MergeOn(was, vs + ws) == match MergeOn(was, vs) case Ok(v) => MergeOn(v, ws) case Err(e) => Err(e)
  {
    if ws == [] {
      assert vs + ws == vs;
    } else {
      var n := |ws| - 1;
      MergeOnConcat(was, vs, ws[..n]);
      assert (vs + ws)[..|vs + ws| - 1] == vs + ws[..n];
    }
  }

  /** Entries after entries. */
  lemma GiveOn(target: Values, a: seq<(string, Value)>, mid: Values, b: seq<(string, Value)>, argKeys: set<string>,
               key: string)
    requires EntriesGive(target, a, argKeys, mid)
    ensures Under(a + b, key) == Under(a, key) + Under(b, key)
    ensures Merged(key, argKeys) ==>
              && MergeOn(Get(target, key), Under(a + b, key)) == MergeOn(Get(mid, key), Under(b, key))
              && (key in mid <==> key in target || Under(a, key) != [])
    ensures !Merged(key, argKeys) ==> (key in mid <==> key in target) && Get(mid, key) == Get(target, key)
  {
    hide MergeOn, Under;
    UnderConcat(a, b, key);
    if Merged(key, argKeys) { MergeOnConcat(Get(target, key), Under(a, key), Under(b, key)); }
  }

  lemma GiveUnique(target: Values, entries: seq<(string, Value)>, argKeys: set<string>, v: Values, w: Values)
    requires EntriesGive(target, entries, argKeys, v) && EntriesGive(target, entries, argKeys, w)
    ensures v == w
  {
    hide MergeOn, Under;
    forall key ensures key in v <==> key in w {}
    forall key | key in v ensures v[key] == w[key] {
      assert Get(v, key) == v[key] && Get(w, key) == w[key];
    }
  }

  lemma {:induction false} ExpandExactly(disk: Disk, names: seq<Value>, values: Values)
    ensures var r := ExpandAll(disk, names, values);
            && (r.Ok? <==> forall name :: name in names ==> disk.expand(name, values).Some?)
            && (r.Ok? ==> |r.value| == |names|
                          && forall i :: 0 <= i < |names| ==> disk.expand(names[i], values) == Some(r.value[i]))
            && (r.Err? ==> r == Err(BadWildcard))
  {
    if names != [] {
      var n := |names| - 1;
      ExpandExactly(disk, names[..n], values);
      assert names == names[..n] + [names[n]];
    }
  }

  lemma PathsOfPrefix(order: seq<string>, path: string, i: nat)
    requires i < |order|
    ensures (order + [path])[i] == order[i] && (order + [path])[..i + 1] == order[..i + 1]
  {
  }

  /** An order goes if it goes without its last file and that file goes after the others. */
  lemma OrderGoesMore(disk: Disk, initial: Values, front: seq<string>, path: string)
    ensures var order, argKeys, entries := front + [path], ArgKeys(initial), EntriesOf(disk, path);
            OrderGoes(disk, initial, order) <==>
              && OrderGoes(disk, initial, front) && Readable(disk, path)
              && (forall n :: 0 <= n < |entries| ==> WellFormed(entries[n].0, entries[n].1, front == [], argKeys))
              && KeysMerge(initial, AllEntries(disk, front) + entries)
              && Expands(disk, initial, order, |front|)
  {
    hide AllReadable, FormsFit, KeysMerge, AllExpand, Expands, WellFormed, Readable, EntriesOf, AllEntries, ArgKeys;
    ReadableMore(disk, front, path);
    FormsMore(disk, initial, front, path);
    AllEntriesMore(disk, front, path);
    FrontMerges(disk, initial, front, path);
    ExpandMore(disk, initial, front, path);
  }

  lemma ReadableMore(disk: Disk, front: seq<string>, path: string)
    ensures AllReadable(disk, front + [path]) <==> AllReadable(disk, front) && Readable(disk, path)
  {
    hide Readable;
    var order := front + [path];
    assert order[|front|] == path && forall i :: 0 <= i < |front| ==> order[i] == front[i];
  }

  lemma FormsMore(disk: Disk, initial: Values, front: seq<string>, path: string)
    ensures var entries := EntriesOf(disk, path);
            var argKeys := ArgKeys(initial);
            FormsFit(disk, initial, front + [path]) <==>
              && FormsFit(disk, initial, front)
              && forall n :: 0 <= n < |entries| ==> WellFormed(entries[n].0, entries[n].1, front == [], argKeys)
  {
    hide WellFormed, EntriesOf, ArgKeys;
    var order := front + [path];
    assert order[|front|] == path && forall i :: 0 <= i < |front| ==> order[i] == front[i];
  }

  lemma ExpandMore(disk: Disk, initial: Values, front: seq<string>, path: string)
    ensures AllExpand(disk, initial, front + [path]) <==>
              AllExpand(disk, initial, front) && Expands(disk, initial, front + [path], |front|)
  {
    var order := front + [path];
    forall i | 0 <= i < |front| ensures Expands(disk, initial, order, i) == Expands(disk, initial, front, i) {
      PathsOfPrefix(front, path, i);
    }
    hide Expands;
  }

  lemma FrontMerges(disk: Disk, initial: Values, front: seq<string>, path: string)
    ensures KeysMerge(initial, AllEntries(disk, front) + EntriesOf(disk, path)) ==>
              KeysMerge(initial, AllEntries(disk, front))
  {
    hide MergeOn, Under, AllEntries, EntriesOf, Merged;
    var a, b := AllEntries(disk, front), EntriesOf(disk, path);
    forall key | MergeOn(Get(initial, key), Under(a, key)).Err?
      ensures MergeOn(Get(initial, key), Under(a + b, key)).Err?
    {
      UnderConcat(a, b, key);
      MergeOnFails(Get(initial, key), Under(a, key), Under(b, key));
    }
  }

  /** What a file includes: its names, expanded with the values after it. */
  ghost predicate Included(disk: Disk, entries: seq<(string, Value)>, argKeys: set<string>, values: Values,
                           paths: seq<string>) {
    var names := Imports(entries, argKeys);
    |paths| == |names| && forall i :: 0 <= i < |names| ==> disk.expand(names[i], values) == Some(paths[i])
  }

  /** One more file, in terms of the files before. */
  lemma FileExactly(disk: Disk, initial: Values, front: seq<string>, path: string, mid: Values)
    requires OrderGoes(disk, initial, front)
    requires EntriesGive(initial, AllEntries(disk, front), ArgKeys(initial), mid)
    ensures var r := LoadFile(disk, mid, path, front == [], ArgKeys(initial));
            && (r.Ok? <==> OrderGoes(disk, initial, front + [path]))
            && (r.Ok? ==> EntriesGive(initial, AllEntries(disk, front + [path]), ArgKeys(initial), r.value.0)
                          && Included(disk, EntriesOf(disk, path), ArgKeys(initial), r.value.0, r.value.1))
  {
    hide MergeOn, Under, WellFormed, Merged, LoadEntries, ExpandAll, EntriesGive, EntriesGo, OrderGoes, Imports,
         Expands, AllEntries, ArgKeys, Included;
    var order, argKeys := front + [path], ArgKeys(initial);
    OrderGoesMore(disk, initial, front, path);
    AllEntriesMore(disk, front, path);
    if Readable(disk, path) {
      var entries := EntriesOf(disk, path);
      EntriesExactly(mid, entries, front == [], argKeys);
      GoesAfter(initial, AllEntries(disk, front), mid, entries, front == [], argKeys);
      var r := LoadEntries(mid, entries, front == [], argKeys);
      if r.Ok? {
        GivesAfter(initial, AllEntries(disk, front), mid, entries, argKeys, r.value.0);
        ExpandExactly(disk, Imports(entries, argKeys), r.value.0);
        OnlyValues(disk, initial, order, r.value.0);
        var paths := ExpandAll(disk, Imports(entries, argKeys), r.value.0);
        if paths.Ok? { IncludedAre(disk, entries, argKeys, r.value.0, paths.value); }
      }
    }
  }

  lemma IncludedAre(disk: Disk, entries: seq<(string, Value)>, argKeys: set<string>, values: Values,
                    paths: seq<string>)
    requires ExpandAll(disk, Imports(entries, argKeys), values) == Ok(paths)
    ensures Included(disk, entries, argKeys, values, paths)
  {
    ExpandExactly(disk, Imports(entries, argKeys), values);
  }

  lemma GoesAfter(target: Values, a: seq<(string, Value)>, mid: Values, b: seq<(string, Value)>, isFirst: bool,
                  argKeys: set<string>)
    requires EntriesGive(target, a, argKeys, mid)
    ensures EntriesGo(mid, b, isFirst, argKeys) <==>
              && (forall n :: 0 <= n < |b| ==> WellFormed(b[n].0, b[n].1, isFirst, argKeys))
              && forall key :: Merged(key, argKeys) ==> MergeOn(Get(target, key), Under(a + b, key)).Ok?
  {
    hide MergeOn, Under, EntriesGive, WellFormed, Get, Merged;
    forall key | Merged(key, argKeys)
      ensures MergeOn(Get(target, key), Under(a + b, key)) == MergeOn(Get(mid, key), Under(b, key))
    {
      GiveOn(target, a, mid, b, argKeys, key);
    }
  }

  lemma GivesAfter(target: Values, a: seq<(string, Value)>, mid: Values, b: seq<(string, Value)>, argKeys: set<string>,
                   values: Values)
    requires EntriesGive(target, a, argKeys, mid) && EntriesGive(mid, b, argKeys, values)
    ensures EntriesGive(target, a + b, argKeys, values)
  {
    hide MergeOn, Under, Merged, Get;
    forall key ensures Under(a + b, key) == Under(a, key) + Under(b, key)
               ensures Merged(key, argKeys) ==> MergeOn(Get(target, key), Under(a + b, key)) == Ok(Get(values, key))
    {
      GiveOn(target, a, mid, b, argKeys, key);
    }
  }

  lemma OnlyValues(disk: Disk, initial: Values, order: seq<string>, values: Values)
    requires order != [] && EntriesGive(initial, AllEntries(disk, order), ArgKeys(initial), values)
    ensures var names := Imports(EntriesOf(disk, order[|order| - 1]), ArgKeys(initial));
            Expands(disk, initial, order, |order| - 1) <==>
              forall name :: name in names ==> disk.expand(name, values).Some?
  {
    hide EntriesGive, AllEntries, Imports, EntriesOf;
    assert order[..|order| - 1 + 1] == order;
    forall w | EntriesGive(initial, AllEntries(disk, order), ArgKeys(initial), w) ensures w == values {
      GiveUnique(initial, AllEntries(disk, order), ArgKeys(initial), w, values);
    }
  }

  /** Main theorem on values: files load in an order exactly if they can be read, fit in form, can be merged key by key
      and can be expanded; then every key holds what its initial value and all values under it in turn merge to. */
  lemma {:induction false} OrderExactly(disk: Disk, initial: Values, order: seq<string>)
    ensures var r := LoadInOrder(disk, initial, order);
            && (r.Ok? <==> OrderGoes(disk, initial, order))
            && (r.Ok? ==> EntriesGive(initial, AllEntries(disk, order), ArgKeys(initial), r.value.0))
            && (r.Ok? && order != [] ==>
                  Included(disk, EntriesOf(disk, order[|order| - 1]), ArgKeys(initial), r.value.0, r.value.1))
  {
    hide OrderGoes, EntriesGive, Included, LoadFile, AllEntries;
    if order == [] {
      NoFilesGo(disk, initial);
    } else {
      var front, path := order[..|order| - 1], order[|order| - 1];
      assert order == front + [path];
      OrderExactly(disk, initial, front);
      OrderGoesMore(disk, initial, front, path);
      var r := LoadInOrder(disk, initial, front);
      if r.Ok? { FileExactly(disk, initial, front, path, r.value.0); }
    }
  }

  lemma NoFilesGo(disk: Disk, initial: Values)
    ensures OrderGoes(disk, initial, []) && EntriesGive(initial, AllEntries(disk, []), ArgKeys(initial), initial)
  {
  }

  // ---- results of loads ----

  /** The initial value under a key, if any, and all values under it in the files. */
  function ValuesUnder(initial: Values, entries: seq<(string, Value)>, key: string): seq<Value> {
    (if key in initial then [initial[key]] else []) + Under(entries, key)
  }

  lemma MergedValues(initial: Values, entries: seq<(string, Value)>, key: string)
    ensures MergeAll(ValuesUnder(initial, entries, key)) == MergeOn(Get(initial, key), Under(entries, key))
  {
    var before: seq<Value> := if key in initial then [initial[key]] else [];
    MergeOnAll(before, Under(entries, key));
    OneOrNone(before);
  }

  /** A load that succeeds leaves under every key the merge of all its values, the initial one first. */
  lemma LoadedKeys(disk: Disk, initial: Values, path: string, order: seq<string>, values: Values, key: string)
    requires Outcome(disk, initial, path, order, Ok(values))
    ensures var vs := ValuesUnder(initial, AllEntries(disk, order), key);
            if key == "import_cfgs" || (key in CMDLINE_FIELDS && key in initial) then
              (key in values <==> key in initial) && (key in initial ==> values[key] == initial[key])
            else
              (key in values <==> vs != []) && (key in values ==> MergeAll(vs) == Ok(values[key]))
  {
    hide MergeOn, Under, AllEntries, LoadInOrder, Complete, MergeAll;
    OrderExactly(disk, initial, order);
    MergedValues(initial, AllEntries(disk, order), key);
    assert Get(values, key) == if key in values then values[key] else Null;
  }

  /** Why a load stops at a file. */
  ghost predicate FileFault(disk: Disk, initial: Values, front: seq<string>, path: string, e: Error) {
    var argKeys, entries := ArgKeys(initial), EntriesOf(disk, path);
    || (path !in disk.files && e == Unreadable)
    || (path in disk.files && disk.files[path].Junk? && e == NotADictionary)
    || (exists n :: 0 <= n < |entries|
         && Culprit(initial, AllEntries(disk, front) + entries[..n], entries[n], front == [], argKeys, e))
    || (e == BadWildcard && !Expands(disk, initial, front + [path], |front|))
  }

  /** If loading in an order fails, the first file at fault decides the error. */
  lemma {:induction false} OrderFails(disk: Disk, initial: Values, order: seq<string>) returns (i: nat)
    requires LoadInOrder(disk, initial, order).Err?
    ensures i < |order| && OrderGoes(disk, initial, order[..i])
    ensures FileFault(disk, initial, order[..i], order[i], LoadInOrder(disk, initial, order).error)
  {
    hide OrderGoes, FileFault, LoadFile;
    i := |order| - 1;
    var front := order[..i];
    var r := LoadInOrder(disk, initial, front);
    if r.Err? {
      i := OrderFails(disk, initial, front);
      assert front[..i] == order[..i];
    } else {
      OrderExactly(disk, initial, front);
      FileFails(disk, initial, front, order[i], r.value.0);
    }
  }

  lemma FileFails(disk: Disk, initial: Values, front: seq<string>, path: string, mid: Values)
    requires OrderGoes(disk, initial, front)
    requires EntriesGive(initial, AllEntries(disk, front), ArgKeys(initial), mid)
    requires LoadFile(disk, mid, path, front == [], ArgKeys(initial)).Err?
    ensures FileFault(disk, initial, front, path, LoadFile(disk, mid, path, front == [], ArgKeys(initial)).error)
  {
    hide MergeOn, Under, LoadEntries, ExpandAll, EntriesGive, EntriesGo, OrderGoes, Imports, AllEntries, Expands,
         Culprit, ArgKeys;
    var argKeys := ArgKeys(initial);
    if Readable(disk, path) {
      var entries := EntriesOf(disk, path);
      var r := LoadEntries(mid, entries, front == [], argKeys);
      if r.Err? {
        var n := EntriesFail(mid, entries, front == [], argKeys);
        CulpritOn(initial, AllEntries(disk, front), mid, entries[..n], entries[n], front == [], argKeys, r.error);
      } else {
        EntriesExactly(mid, entries, front == [], argKeys);
        GivesAfter(initial, AllEntries(disk, front), mid, entries, argKeys, r.value.0);
        AllEntriesMore(disk, front, path);
        ExpandExactly(disk, Imports(entries, argKeys), r.value.0);
        OnlyValues(disk, initial, front + [path], r.value.0);
      }
    }
  }

  lemma AllEntriesMore(disk: Disk, front: seq<string>, path: string)
    ensures AllEntries(disk, front + [path]) == AllEntries(disk, front) + EntriesOf(disk, path)
  {
    assert (front + [path])[..|front|] == front;
  }

  lemma CulpritOn(target: Values, a: seq<(string, Value)>, mid: Values, b: seq<(string, Value)>, entry: (string, Value),
                  isFirst: bool, argKeys: set<string>, e: Error)
    requires EntriesGive(target, a, argKeys, mid) && Culprit(mid, b, entry, isFirst, argKeys, e)
    ensures Culprit(target, a + b, entry, isFirst, argKeys, e)
  {
    hide MergeOn, Under, EntriesGive;
    var (key, v) := entry;
    GiveOn(target, a, mid, b, argKeys, key);
    MergeOnMore(Get(target, key), Under(a + b, key), v);
    MergeOnMore(Get(mid, key), Under(b, key), v);
  }
}
