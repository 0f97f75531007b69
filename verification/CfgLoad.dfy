/** Loading configuration files in place: lists are objects that the caller may share. */
module CfgLoad {
  import opened Wrappers
  import opened CfgMerge
  import opened CfgKeys

  /** A list that several names can refer to. */
  class ListObject {
    var items: seq<Value>

    constructor (items: seq<Value>)
      ensures this.items == items
    {
      this.items := items;
    }
  }

  /** What a dictionary stores under a key: a list is stored as a reference. */
  datatype Slot = Plain(value: Value) | Held(list: ListObject)

  type Slots = map<string, Slot>

  predicate Proper(slots: Slots) {
    forall k :: k in slots && slots[k].Plain? ==> !slots[k].value.List?
  }

  /** Different keys hold different lists. */
  ghost predicate Unshared(slots: Slots) {
    forall k, l :: k in slots && l in slots && k != l && slots[k].Held? && slots[l].Held? ==>
      slots[k].list != slots[l].list
  }

  ghost function ListsOf(slots: Slots): set<ListObject> {
    set k | k in slots && slots[k].Held? :: slots[k].list
  }

  function Look(slot: Slot): Value
    reads if slot.Held? then {slot.list} else {}
  {
    match slot
    case Plain(v) => v
    case Held(list) => List(list.items)
  }

  function View(slots: Slots): Values
    reads ListsOf(slots)
  {
    map k | k in slots :: Look(slots[k])
  }

  /** Lists stay where they are. */
  ghost predicate Keeps(was: Slots, now: Slots) {
    forall k :: k in was && was[k].Held? ==> k in now && now[k] == was[k]
  }

  /** The list is under a key that files can extend. */
  ghost predicate Extensible(slots: Slots, list: ListObject, argKeys: set<string>) {
    exists k :: k in slots && slots[k] == Held(list) && k != "import_cfgs" && k !in argKeys
  }

  /** The configuration being put together. */
  class Config {
    var values: Slots

    constructor (initial: Slots)
      ensures values == initial
    {
      values := initial;
    }

    /** Sets an attribute, merging it with the value that is there; a list that is there is extended in place. */
    method SetTargetAttribute(key: string, v: Value) returns (r: Option<Error>)
      requires Proper(values)
      modifies this, ListsOf(values)
      ensures Proper(values) && Keeps(old(values), values)
      ensures forall k :: k in values && values[k].Held? ==>
                (k in old(values) && values[k] == old(values)[k]) || fresh(values[k].list)
      ensures forall o :: o in old(ListsOf(values)) && o.items != old(o.items) ==>
                key in old(values) && old(values)[key] == Held(o)
      ensures match Merge(if key in old(values) then old(Look(values[key])) else Null, v)
              case Ok(merged) =>
                && r == None
                && (old(Unshared(values)) ==> Unshared(values) && View(values) == old(View(values))[key := merged])
              case Err(e) => r == Some(e) && values == old(values) && View(values) == old(View(values))
    {
      hide Merge;
      if key in values && values[key].Held? {
        MergeList(values[key].list.items, v);
        if !v.List? { return Some(NotAList); }
        var list := values[key].list;
        list.items := list.items + v.items;
        return None;
      }
      r := SetPlain(key, v);
    }

    lemma MergeList(items: seq<Value>, v: Value)
      ensures Merge(List(items), v) == if v.List? then Ok(List(items + v.items)) else Err(NotAList)
    {
    }

    /** The part of SetTargetAttribute for a key that holds no list. */
    method SetPlain(key: string, v: Value) returns (r: Option<Error>)
      requires Proper(values) && (key in values ==> values[key].Plain?)
      modifies this
      ensures Proper(values) && Keeps(old(values), values)
      ensures forall k :: k in values && values[k].Held? ==>
                (k in old(values) && values[k] == old(values)[k]) || fresh(values[k].list)
      ensures match Merge(if key in old(values) then old(values)[key].value else Null, v)
              case Ok(merged) =>
                && r == None
                && (old(Unshared(values)) ==> Unshared(values) && View(values) == old(View(values))[key := merged])
              case Err(e) => r == Some(e) && values == old(values) && View(values) == old(View(values))
    {
      hide Same, IsDefault, View, Unshared, Keeps;
      var was := if key in values then values[key].value else Null;
      NothingLost(values);
      if was == Null {
        if v.List? { PutList(key, v); } else { PutPlain(key, v); }
        return None;
      }
      if !v.Str? && !v.Int? && !v.Bool? { return Some(UnknownType); }
      if v.Str? != was.Str? || !Scalar(was) { return Some(IncompatibleType); }
      SameView(key);
      if Same(was, v) { return None; }
      var oldIsDefault, newIsDefault := IsDefault(was), IsDefault(v);
      if newIsDefault { return None; }
      if oldIsDefault {
        PutPlain(key, v);
        return None;
      }
      return Some(Conflict);
    }

    lemma SameView(key: string)
      requires key in values && values[key].Plain?
      ensures View(values)[key := values[key].value] == View(values)
    {
    }

    lemma NothingLost(slots: Slots)
      ensures Keeps(slots, slots)
    {
    }

    method PutPlain(key: string, v: Value)
      requires Proper(values) && (key in values ==> values[key].Plain?) && !v.List?
      modifies this
      ensures Proper(values) && Keeps(old(values), values)
      ensures forall k :: k in values && values[k].Held? ==> k in old(values) && values[k] == old(values)[k]
      ensures old(Unshared(values)) ==> Unshared(values) && View(values) == old(View(values))[key := v]
    {
      values := values[key := Plain(v)];
    }

    method PutList(key: string, v: Value)
      requires Proper(values) && (key in values ==> values[key].Plain?) && v.List?
      modifies this
      ensures Proper(values) && Keeps(old(values), values)
      ensures forall k :: k in values && values[k].Held? ==>
                (k in old(values) && values[k] == old(values)[k]) || fresh(values[k].list)
      ensures old(Unshared(values)) ==> Unshared(values) && View(values) == old(View(values))[key := v]
    {
      var list := new ListObject(v.items);
      values := values[key := Held(list)];
    }

    /** Loads one file and returns what it includes. */
    method LoadSingleFile(disk: Disk, path: string, isFirst: bool, argKeys: set<string>)
      returns (r: Result<seq<string>>)
      requires Proper(values)
      modifies this, ListsOf(values)
      ensures Proper(values) && Keeps(old(values), values)
      ensures forall k :: k in values && values[k].Held? ==>
                (k in old(values) && values[k] == old(values)[k]) || fresh(values[k].list)
      ensures forall o :: o in old(ListsOf(values)) && o.items != old(o.items) ==> Extensible(old(values), o, argKeys)
      ensures r.Ok? ==> path in disk.files
      ensures old(Unshared(values)) ==>
                && Unshared(values) && View(values) == FileEffect(disk, old(View(values)), path, isFirst, argKeys)
                && match LoadFile(disk, old(View(values)), path, isFirst, argKeys)
                   case Ok((now, paths)) => r == Ok(paths)
                   case Err(e) => r == Err(e)
    {
      hide Merge, LoadEntries, EntriesEffect, ExpandAll, Unshared;
      if path !in disk.files { return Err(Unreadable); }
      var file := disk.files[path];
      if file.Junk? { return Err(NotADictionary); }
      ghost var start, alone := View(values), Unshared(values);
      var entries := file.entries;
      var names: Result<seq<Value>> := LoadKeys(entries, isFirst, argKeys);
      EffectOfEntries(start, entries, isFirst, argKeys);
      if names.Err? { return Err(names.error); }
      ghost var now := View(values);
      r := ExpandNames(disk, names.value);
      assert View(values) == now;
    }

    /** The names of included files, with wildcards expanded. */
    method ExpandNames(disk: Disk, imports: seq<Value>) returns (r: Result<seq<string>>)
      ensures r == ExpandAll(disk, imports, View(values))
    {
      hide ExpandAll, View;
      var paths: seq<string> := [];
      NoNames(disk, View(values));
      for i := 0 to |imports|
        invariant ExpandAll(disk, imports[..i], View(values)) == Ok(paths)
      {
        var path := disk.expand(imports[i], View(values));
        ExpandNext(disk, imports, i, View(values));
        if path.None? { ExpandFails(disk, imports, i + 1, View(values)); return Err(BadWildcard); }
        paths := paths + [path.value];
      }
      assert imports[..|imports|] == imports;
      return Ok(paths);
    }

    /** The keys of a file in turn. */
    method LoadKeys(entries: seq<(string, Value)>, isFirst: bool, argKeys: set<string>)
      returns (r: Result<seq<Value>>)
      requires Proper(values)
      modifies this, ListsOf(values)
      ensures Proper(values) && Keeps(old(values), values)
      ensures forall k :: k in values && values[k].Held? ==>
                (k in old(values) && values[k] == old(values)[k]) || fresh(values[k].list)
      ensures forall o :: o in old(ListsOf(values)) && o.items != old(o.items) ==> Extensible(old(values), o, argKeys)
      ensures old(Unshared(values)) ==>
                && Unshared(values) && View(values) == EntriesEffect(old(View(values)), entries, isFirst, argKeys)
                && match LoadEntries(old(View(values)), entries, isFirst, argKeys)
                   case Ok((now, imports)) => r == Ok(imports) && View(values) == now
                   case Err(e) => r == Err(e)
    {
      hide Merge, LoadEntries, EntriesEffect, View, Unshared;
      ghost var start, alone := View(values), Unshared(values);
      var imports: seq<Value> := [];
      NoEntries(start, isFirst, argKeys);
      assert entries[..0] == [];
      for i := 0 to |entries|
        invariant Proper(values) && Keeps(old(values), values)
        invariant forall k :: k in values && values[k].Held? ==>
          (k in old(values) && values[k] == old(values)[k]) || fresh(values[k].list)
        invariant forall o :: o in old(ListsOf(values)) && o.items != old(o.items) ==>
          Extensible(old(values), o, argKeys)
        invariant alone ==>
          Unshared(values) && LoadEntries(start, entries[..i], isFirst, argKeys) == Ok((View(values), imports))
      {
        var (key, v) := entries[i];
        ghost var before := View(values);
        if alone { OneEntry(start, entries, i, isFirst, argKeys, before, imports); }
        if key in argKeys { continue; }
        if key == "import_cfgs" {
          if !v.List? { return Err(ImportsNotAList); }
          imports := imports + v.items;
          continue;
        }
        if key == "use_cfgs" {
          if !isFirst { return Err(UseCfgsInInclude); }
          if !v.List? { return Err(UseCfgsNotAList); }
        }
        LookIsView(key);
        var error := SetTargetAttribute(key, v);
        if error.Some? { return Err(error.value); }
      }
      assert entries[..|entries|] == entries;
      EffectOfEntries(start, entries, isFirst, argKeys);
      return Ok(imports);
    }

    lemma LookIsView(key: string)
      ensures key in View(values) <==> key in values
      ensures key in values ==> View(values)[key] == Look(values[key])
    {
    }
  }

  lemma NoNames(disk: Disk, values: Values)
    ensures ExpandAll(disk, [], values) == Ok([])
  {
  }

  lemma ExpandNext(disk: Disk, names: seq<Value>, i: nat, values: Values)
    requires i < |names|
    ensures names[..0] == []
    ensures match ExpandAll(disk, names[..i], values)
            case Err(_) => true
            case Ok(before) =>
              ExpandAll(disk, names[..i + 1], values) ==
              match disk.expand(names[i], values)
              case None => Err(BadWildcard)
              case Some(path) => Ok(before + [path])
  {
    assert names[..i + 1][..i] == names[..i];
  }

  lemma NoEntries(target: Values, isFirst: bool, argKeys: set<string>)
    ensures LoadEntries(target, [], isFirst, argKeys) == Ok((target, []))
  {
  }

  /** The next key decides how the load goes on. */
  lemma OneEntry(target: Values, entries: seq<(string, Value)>, i: nat, isFirst: bool, argKeys: set<string>,
                 before: Values, imports: seq<Value>)
    requires i < |entries| && LoadEntries(target, entries[..i], isFirst, argKeys) == Ok((before, imports))
    ensures var r := LoadEntry(before, imports, entries[i], isFirst, argKeys);
            && LoadEntries(target, entries[..i + 1], isFirst, argKeys) == r
            && (r.Err? ==> LoadEntries(target, entries, isFirst, argKeys) == r)
            && (r.Err? ==> EntriesEffect(target, entries, isFirst, argKeys) == before)
  {
    assert entries[..i + 1][..i] == entries[..i];
    LoadEntriesFail(target, entries, i + 1, isFirst, argKeys);
    if LoadEntry(before, imports, entries[i], isFirst, argKeys).Err? {
      EffectStops(target, entries, i, isFirst, argKeys);
    }
  }

  function ViewResult(r: Result<Slots>): Result<Values>
    reads if r.Ok? then ListsOf(r.value) else {}
  {
    match r
    case Ok(slots) => Ok(View(slots))
    case Err(e) => Err(e)
  }

  /** The caller's lists now hold these values. */
  ghost predicate ListsHold(initial: Slots, now: Values)
    reads ListsOf(initial)
  {
    forall k :: k in initial && initial[k].Held? ==> k in now && now[k] == List(initial[k].list.items)
  }

  /** If the load has succeeded, every key holds the merge of all its values. */
  ghost predicate KeysMerged(disk: Disk, initial: Values, order: seq<string>, r: Result<Values>) {
    r.Ok? ==> EntriesGive(initial, AllEntries(disk, order), ArgKeys(initial), r.value)
  }

  lemma OutcomeMerged(disk: Disk, initial: Values, path: string, order: seq<string>, r: Result<Values>)
    requires Outcome(disk, initial, path, order, r)
    ensures KeysMerged(disk, initial, order, r)
  {
    hide EntriesGive, AllEntries, LoadInOrder, Complete;
    OrderExactly(disk, initial, order);
  }

  predicate SomeSeen(paths: seq<string>, seen: set<string>) {
    exists p :: p in paths && p in seen
  }

  lemma NoneSeen(paths: seq<string>, seen: set<string>)
    requires !SomeSeen(paths, seen)
    ensures forall p :: p in paths ==> p !in seen
  {
  }

  lemma SameKeys(initial: Slots)
    ensures CMDLINE_FIELDS * initial.Keys == ArgKeys(View(initial))
  {
  }

  /** What one more file makes of a load. */
  lemma StepOutcome(disk: Disk, start: Values, path: string, order: seq<string>, work: seq<string>, next: string,
                    seen: set<string>, values: Values, r: Result<seq<string>>, now: Values)
    requires Loading(disk, start, path, order, work + [next], seen, values)
    requires now == FileEffect(disk, values, next, order == [], ArgKeys(start))
    requires match LoadFile(disk, values, next, order == [], ArgKeys(start))
             case Ok((_, paths)) => r == Ok(paths)
             case Err(e) => r == Err(e)
    ensures EffectInOrder(disk, start, order + [next]) == now
    ensures r.Err? ==> Outcome(disk, start, path, order + [next], Err(r.error))
    ensures r.Ok? && SomeSeen(r.value, seen) ==> Outcome(disk, start, path, order + [next], Err(SeenTwice))
    ensures r.Ok? && !SomeSeen(r.value, seen) ==>
              && (forall p :: p in r.value ==> p !in seen)
              && Loading(disk, start, path, order + [next], work + r.value, seen + (set p | p in r.value), now)
  {
    hide Loading, LoadFile, FileEffect, EffectInOrder, Fails, Complete, ArgKeys;
    var after := LoadFile(disk, values, next, order == [], ArgKeys(start));
    LoadStep(disk, start, path, order, work, next, seen, values, after);
    LoadingMeans(disk, start, path, order, work + [next], seen, values);
    EffectStep(disk, start, order, next, values);
    EffectOfFile(disk, values, next, order == [], ArgKeys(start));
  }

  lemma LastOutcome(disk: Disk, start: Values, path: string, order: seq<string>, seen: set<string>, values: Values)
    requires Loading(disk, start, path, order, [], seen, values)
    ensures Outcome(disk, start, path, order, Ok(values)) && EffectInOrder(disk, start, order) == values
  {
    hide Loading, EffectInOrder, Complete;
    LoadEnds(disk, start, path, order, seen, values);
    LoadingMeans(disk, start, path, order, [], seen, values);
    EffectOfLoad(disk, start, order);
  }

  lemma StillExtensible(initial: Slots, now: Slots, list: ListObject, argKeys: set<string>)
    requires forall k :: k in now && now[k] == Held(list) ==> k in initial && initial[k] == Held(list)
    ensures Extensible(now, list, argKeys) ==> Extensible(initial, list, argKeys)
  {
  }

  lemma NothingExtensible(initial: Slots)
    ensures NoGrowingList(View(initial)) ==> forall o :: !Extensible(initial, o, CMDLINE_FIELDS * initial.Keys)
  {
    if NoGrowingList(View(initial)) {
      forall k | k in initial && initial[k].Held? ensures Protected(k) {
        assert View(initial)[k].List?;
      }
    }
  }

  /** What a load has come to: the files of the order were loaded or the last of them failed, the caller's lists hold
      what was merged into them, and after success every key holds the merge of all its values. */
  ghost predicate LoadedAs(disk: Disk, start: Values, path: string, order: seq<string>, r: Result<Values>,
                           initial: Slots)
    reads ListsOf(initial)
  {
    && Outcome(disk, start, path, order, r) && ListsHold(initial, EffectInOrder(disk, start, order))
    && KeysMerged(disk, start, order, r)
  }

  lemma LoadEndsAs(disk: Disk, start: Values, path: string, order: seq<string>, r: Result<Values>, initial: Slots,
                   now: Slots)
    requires Outcome(disk, start, path, order, r)
    requires Keeps(initial, now) && View(now) == EffectInOrder(disk, start, order)
    ensures LoadedAs(disk, start, path, order, r, initial)
  {
    hide Outcome, EffectInOrder, KeysMerged;
    OutcomeMerged(disk, start, path, order, r);
  }

  /** Main theorem: loading ends however the files include each other. It either loads every named file as often as it
      was named, merging in the order of the work list, or stops at the first file that fails or includes one named
      before. Either way the lists among the initial values hold afterwards what the load has merged into them. They
      are untouched if none of them is under a key that files can extend. */
  method LoadHjson(disk: Disk, path: string, initial: Slots) returns (r: Result<Slots>, ghost order: seq<string>)
    requires Proper(initial)
    modifies ListsOf(initial)
    ensures r.Ok? ==> Keeps(initial, r.value)
    ensures Unshared(initial) ==> LoadedAs(disk, old(View(initial)), path, order, ViewResult(r), initial)
    ensures NoGrowingList(old(View(initial))) ==> forall o :: o in ListsOf(initial) ==> o.items == old(o.items)
  {
    hide Loading, LoadFile, FileEffect, EffectInOrder, Outcome, Unshared, LoadedAs, NoGrowingList, Extensible, ArgKeys,
         SomeSeen, View, Unseen;
    var worklist := [path];
    var seen := {path};
    var ret := new Config(initial);
    var isFirst := true;
    ghost var start, alone := View(initial), Unshared(initial);
    order := [];
    var argKeys := CMDLINE_FIELDS * initial.Keys;
    NothingExtensible(initial);
    ghost var safe := NoGrowingList(start);
    SameKeys(initial);
    assert safe ==> forall o :: !Extensible(initial, o, argKeys);
    LoadBegins(disk, start, path);
    while worklist != []
      invariant fresh(ret) && Proper(ret.values) && Keeps(initial, ret.values)
      invariant forall k :: k in ret.values && ret.values[k].Held? ==>
        (k in initial && ret.values[k] == initial[k]) || fresh(ret.values[k].list)
      invariant forall o :: o in ListsOf(initial) && o.items != old(o.items) ==> Extensible(initial, o, argKeys)
      invariant alone ==> Unshared(ret.values) && Loading(disk, start, path, order, worklist, seen, View(ret.values))
      invariant isFirst <==> order == []
      decreases |Unseen(disk, seen)|,
                if worklist != [] && worklist[|worklist| - 1] in disk.files then 1 else 0, |worklist|
    {
      var next := worklist[|worklist| - 1];
      assert worklist == worklist[..|worklist| - 1] + [next];
      worklist := worklist[..|worklist| - 1];
      ghost var values := View(ret.values);
      forall o | o in ListsOf(initial) && Extensible(ret.values, o, argKeys) ensures Extensible(initial, o, argKeys) {
        StillExtensible(initial, ret.values, o, argKeys);
      }
      var loaded := ret.LoadSingleFile(disk, next, isFirst, argKeys);
      if alone { StepOutcome(disk, start, path, order, worklist, next, seen, values, loaded, View(ret.values)); }
      order := order + [next];
      if loaded.Err? {
        if alone { LoadEndsAs(disk, start, path, order, Err(loaded.error), initial, ret.values); }
        r := Err(loaded.error);
        return;
      }
      var newPaths := loaded.value;
      if SomeSeen(newPaths, seen) {
        if alone { LoadEndsAs(disk, start, path, order, Err(SeenTwice), initial, ret.values); }
        r := Err(SeenTwice);
        return;
      }
      NoneSeen(newPaths, seen);
      ProgressMade(disk, seen, newPaths, worklist);
      seen := seen + set p | p in newPaths;
      worklist := worklist + newPaths;
      isFirst := false;
    }
    if alone {
      LastOutcome(disk, start, path, order, seen, View(ret.values));
      LoadEndsAs(disk, start, path, order, Ok(View(ret.values)), initial, ret.values);
    }
    r := Ok(ret.values);
  }

  /** A caller's list that has grown after a load. */
  method CallersListGrows() returns (list: ListObject)
    ensures fresh(list) && list.items == [Int(1), Null]
  {
    hide View, Outcome, ListsHold, EffectInOrder, KeysMerged, LoadInOrder, Extending, LastFirst;
    list := new ListObject([Int(1)]);
    var initial := map["xs" := Held(list)];
    var disk := Extending("xs");
    ghost var start := View(initial);
    OneListView(initial, "xs", list);
    assert !Protected("xs") by { assert |"xs"| == 2; }
    ghost var order;
    var r;
    r, order := LoadHjson(disk, "f", initial);
    OutcomeOrder(disk, start, "f", order, ViewResult(r));
    ExtendingGrows(start, "xs");
    OnlyFile(disk, start, "f", order);
    OneListHolds(initial, "xs", list, EffectInOrder(disk, start, order));
    assert [Int(1)] + [Null] == [Int(1), Null];
  }

  lemma OneListView(initial: Slots, key: string, list: ListObject)
    requires initial == map[key := Held(list)]
    ensures View(initial) == map[key := List(list.items)] && Unshared(initial) && Proper(initial)
  {
  }

  lemma OneListHolds(initial: Slots, key: string, list: ListObject, now: Values)
    requires initial == map[key := Held(list)] && ListsHold(initial, now)
    ensures key in now && now[key] == List(list.items)
  {
    assert key in initial && initial[key].Held?;
  }
}
