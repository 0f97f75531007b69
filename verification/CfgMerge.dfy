/** Loading configuration files: values are merged key by key, included files are loaded from a work list. */
module CfgMerge {
  import opened Wrappers

  /** Null is an absent placeholder; Other stands for values of any further type. */
  datatype Value = Null | Str(text: string) | Int(number: int) | Bool(truth: bool) | List(items: seq<Value>)
    | Other(repr: string)

  datatype Error =
    Unreadable | NotADictionary | ImportsNotAList | UseCfgsInInclude | UseCfgsNotAList | BadWildcard
    | NotAList | UnknownType | IncompatibleType | Conflict | SeenTwice

  datatype Result<+T> = Ok(value: T) | Err(error: Error)

  type Values = map<string, Value>

  // ---- merging one value ----

  /** Truth values are numbers too. */
  predicate Numeric(v: Value) {
    v.Int? || v.Bool?
  }

  function Number(v: Value): int
    requires Numeric(v)
  {
    if v.Int? then v.number else if v.truth then 1 else 0
  }

  predicate Scalar(v: Value) {
    v.Str? || Numeric(v)
  }

  predicate SameType(a: Value, b: Value) {
    (a.Str? && b.Str?) || (Numeric(a) && Numeric(b))
  }

  /** Equality as the language has it: True equals 1. */
  predicate Same(a: Value, b: Value) {
    if Numeric(a) && Numeric(b) then Number(a) == Number(b) else a == b
  }

  /** The defaults are "", 0 and -1, and False because it equals 0. */
  predicate IsDefault(v: Value) {
    match v
    case Str(s) => s == ""
    case Int(n) => n == 0 || n == -1
    case Bool(b) => !b
    case _ => false
  }

  function Merge(was: Value, now: Value): Result<Value> {
    match was
    case Null => Ok(now)
    case List(items) => if now.List? then Ok(List(items + now.items)) else Err(NotAList)
    case _ =>
      if !Scalar(now) then Err(UnknownType)
      else if !SameType(was, now) then Err(IncompatibleType)
      else if Same(was, now) || IsDefault(now) then Ok(was)
      else if IsDefault(was) then Ok(now)
      else Err(Conflict)
  }

  /** What a key holds after all these values in turn. */
  function MergeAll(vs: seq<Value>): Result<Value> {
    if vs == [] then Ok(Null)
    else
      match MergeAll(vs[..|vs| - 1])
      case Ok(v) => Merge(v, vs[|vs| - 1])
      case Err(e) => Err(e)
  }

  // ---- scalar keys ----

  /** One type, and no two values conflict. */
  ghost predicate Compatible(vs: seq<Value>) {
    forall v, w :: v in vs && w in vs ==> SameType(v, w) && (IsDefault(v) || IsDefault(w) || Same(v, w))
  }

  /** The first value that is not a default, or else the first value. */
  ghost predicate Decides(vs: seq<Value>, r: Value) {
    if vs == [] then r == Null
    else if forall v :: v in vs ==> IsDefault(v) then r == vs[0]
    else r in vs && !IsDefault(r) && forall v :: v in vs ==> IsDefault(v) || Same(v, r)
  }

  lemma SameTypeTransitive(a: Value, b: Value, c: Value)
    requires SameType(a, b) && SameType(b, c)
    ensures SameType(a, c) && SameType(b, a)
  {
  }

  lemma {:induction false} CompatibleMore(vs: seq<Value>, r: Value, now: Value)
    requires vs != [] && Compatible(vs) && Decides(vs, r) && Scalar(now) && forall v :: v in vs ==> Scalar(v)
    ensures Merge(r, now).Ok? <==> Compatible(vs + [now])
    ensures Merge(r, now).Ok? ==> Decides(vs + [now], Merge(r, now).value)
  {
    var more := vs + [now];
    assert vs[0] in vs && vs[0] in more && now in more && r in vs;
    if Merge(r, now).Ok? {
      forall v | v in vs ensures SameType(v, now) && SameType(now, v) {
        SameTypeTransitive(v, r, now);
      }
    }
    if Compatible(more) {
      assert SameType(r, now) && (IsDefault(r) || IsDefault(now) || Same(r, now));
    }
  }

  /** Scalar values in turn are accepted if and only if they are of one type and no two values that are not defaults
      differ; the outcome is then decided by them whatever their order. */
  lemma {:induction false} ScalarsMerge(vs: seq<Value>)
    requires forall v :: v in vs ==> Scalar(v)
    ensures MergeAll(vs).Ok? <==> Compatible(vs)
    ensures MergeAll(vs).Ok? ==> Decides(vs, MergeAll(vs).value)
  {
    hide Compatible, Decides, Merge, Scalar;
    if vs == [] {
      NoValues();
    } else {
      var front, now := vs[..|vs| - 1], vs[|vs| - 1];
      assert vs == front + [now];
      ScalarsMerge(front);
      if front == [] {
        OneValue(now);
      } else if MergeAll(front).Ok? {
        CompatibleMore(front, MergeAll(front).value, now);
      } else {
        CompatibleFront(front, now);
      }
    }
  }

  lemma NoValues()
    ensures Compatible([]) && Decides([], Null)
  {
  }

  lemma OneValue(v: Value)
    requires Scalar(v)
    ensures Merge(Null, v) == Ok(v) && Compatible([v]) && Decides([v], v)
  {
  }

  lemma CompatibleFront(vs: seq<Value>, now: Value)
    ensures Compatible(vs + [now]) ==> Compatible(vs)
  {
    forall v | v in vs ensures v in vs + [now] {}
  }

  lemma OrderIrrelevant(vs: seq<Value>, ws: seq<Value>)
    requires forall v :: v in vs <==> v in ws
    requires forall v :: v in vs ==> Scalar(v)
    ensures MergeAll(vs).Ok? <==> MergeAll(ws).Ok?
    ensures MergeAll(vs).Ok? && (exists v :: v in vs && !IsDefault(v)) ==> Same(MergeAll(vs).value, MergeAll(ws).value)
  {
    ScalarsMerge(vs);
    ScalarsMerge(ws);
  }

  function Concat(vs: seq<Value>): seq<Value>
    requires forall i :: 0 <= i < |vs| ==> vs[i].List?
  {
    if vs == [] then [] else Concat(vs[..|vs| - 1]) + vs[|vs| - 1].items
  }

  /** Lists are joined in the order they come. */
  lemma {:induction false} ListsMerge(vs: seq<Value>)
    requires vs != [] && forall i :: 0 <= i < |vs| ==> vs[i].List?
    ensures MergeAll(vs) == Ok(List(Concat(vs)))
  {
    var front := vs[..|vs| - 1];
    if front != [] {
      ListsMerge(front);
    } else {
      assert Concat(front) == [] && MergeAll(front) == Ok(Null);
      assert Concat(vs) == vs[|vs| - 1].items;
    }
  }

  // ---- files ----

  datatype File = Junk | Entries(entries: seq<(string, Value)>)

  /** The files there are, and the expansion of wildcards in the name of an included file. */
  datatype Disk = Disk(files: map<string, File>, expand: (Value, Values) -> Option<string>)

  /** The effect of the keys of a file in turn: the merged values, and the names of included files. */
  function LoadEntries(target: Values, entries: seq<(string, Value)>, isFirst: bool, argKeys: set<string>)
    : Result<(Values, seq<Value>)>
  {
    if entries == [] then Ok((target, []))
    else
      match LoadEntries(target, entries[..|entries| - 1], isFirst, argKeys)
      case Err(e) => Err(e)
      case Ok((values, imports)) => LoadEntry(values, imports, entries[|entries| - 1], isFirst, argKeys)
  }

  function LoadEntry(values: Values, imports: seq<Value>, entry: (string, Value), isFirst: bool, argKeys: set<string>)
    : Result<(Values, seq<Value>)>
  {
    var (key, v) := entry;
    if key in argKeys then Ok((values, imports))
    else if key == "import_cfgs" then
      if v.List? then Ok((values, imports + v.items)) else Err(ImportsNotAList)
    else if key == "use_cfgs" && !isFirst then Err(UseCfgsInInclude)
    else if key == "use_cfgs" && !v.List? then Err(UseCfgsNotAList)
    else
      match Merge(if key in values then values[key] else Null, v)
      case Err(e) => Err(e)
      case Ok(merged) => Ok((values[key := merged], imports))
  }

  function ExpandAll(disk: Disk, names: seq<Value>, values: Values): Result<seq<string>> {
    if names == [] then Ok([])
    else
      match ExpandAll(disk, names[..|names| - 1], values)
      case Err(e) => Err(e)
      case Ok(paths) =>
        match disk.expand(names[|names| - 1], values)
        case None => Err(BadWildcard)
        case Some(path) => Ok(paths + [path])
  }

  /** The effect of one file. */
  function LoadFile(disk: Disk, target: Values, path: string, isFirst: bool, argKeys: set<string>)
    : Result<(Values, seq<string>)>
  {
    if path !in disk.files then Err(Unreadable)
    else
      match disk.files[path]
      case Junk => Err(NotADictionary)
      case Entries(entries) =>
        match LoadEntries(target, entries, isFirst, argKeys)
        case Err(e) => Err(e)
        case Ok((values, imports)) =>
          match ExpandAll(disk, imports, values)
          case Err(e) => Err(e)
          case Ok(paths) => Ok((values, paths))
  }

  /** A failure among the first entries is the failure of the whole. */
  lemma {:induction false} LoadEntriesFail(
    target: Values, entries: seq<(string, Value)>, n: nat, isFirst: bool, argKeys: set<string>)
    requires n <= |entries|
    ensures var first := LoadEntries(target, entries[..n], isFirst, argKeys);
            first.Err? ==> LoadEntries(target, entries, isFirst, argKeys) == first
    decreases |entries|
  {
    if n == |entries| {
      assert entries[..n] == entries;
    } else {
      var front := entries[..|entries| - 1];
      LoadEntriesFail(target, front, n, isFirst, argKeys);
      assert front[..n] == entries[..n];
    }
  }

  lemma {:induction false} ExpandFails(disk: Disk, names: seq<Value>, n: nat, values: Values)
    requires n <= |names| && ExpandAll(disk, names[..n], values).Err?
    ensures ExpandAll(disk, names, values) == ExpandAll(disk, names[..n], values)
    decreases |names|
  {
    if n == |names| {
      assert names[..n] == names;
    } else {
      var front := names[..|names| - 1];
      assert front[..n] == names[..n];
      ExpandFails(disk, front, n, values);
    }
  }

  // ---- loading in a given order ----

  const CMDLINE_FIELDS: set<string> := {"tool"}

  function ArgKeys(initial: Values): set<string> {
    CMDLINE_FIELDS * initial.Keys
  }

  /** The values after loading these files in this order, and what the last one includes. */
  function LoadInOrder(disk: Disk, initial: Values, order: seq<string>): Result<(Values, seq<string>)> {
    if order == [] then Ok((initial, []))
    else
      match LoadInOrder(disk, initial, order[..|order| - 1])
      case Err(e) => Err(e)
      case Ok((values, _)) => LoadFile(disk, values, order[|order| - 1], |order| == 1, ArgKeys(initial))
  }

  /** What the i-th file includes. */
  function Includes(disk: Disk, initial: Values, order: seq<string>, i: nat): seq<string>
    requires i < |order|
  {
    match LoadInOrder(disk, initial, order[..i + 1])
    case Ok((_, paths)) => paths
    case Err(_) => []
  }

  /** The first file and all files included so far, in order. */
  function Named(disk: Disk, initial: Values, path: string, order: seq<string>, n: nat): seq<string>
    requires n <= |order|
  {
    if n == 0 then [path] else Named(disk, initial, path, order, n - 1) + Includes(disk, initial, order, n - 1)
  }

  /** The work list after n files: the last name is taken off, and what its file includes is put at the end. */
  function WorkAt(disk: Disk, initial: Values, path: string, order: seq<string>, n: nat): seq<string>
    requires n <= |order|
  {
    if n == 0 then [path]
    else
      var before := WorkAt(disk, initial, path, order, n - 1);
      (if before == [] then [] else before[..|before| - 1]) + Includes(disk, initial, order, n - 1)
  }

  /** Each file is the last on the work list when its turn comes, so that the order leaves no choice. */
  ghost predicate LastFirst(disk: Disk, initial: Values, path: string, order: seq<string>) {
    forall i :: 0 <= i < |order| ==>
      var work := WorkAt(disk, initial, path, order, i);
      work != [] && order[i] == work[|work| - 1]
  }

  /** No file includes one that was named before. */
  ghost predicate NoneSeenTwice(disk: Disk, initial: Values, path: string, order: seq<string>) {
    forall i, p :: 0 <= i < |order| && p in Includes(disk, initial, order, i) ==>
      p !in Named(disk, initial, path, order, i)
  }

  /** A load that went through: every name was loaded as often as it was named, and nothing else, in the order of the
      work list. */
  ghost predicate Complete(disk: Disk, initial: Values, path: string, order: seq<string>) {
    && order != [] && order[0] == path
    && LastFirst(disk, initial, path, order) && WorkAt(disk, initial, path, order, |order|) == []
    && NoneSeenTwice(disk, initial, path, order)
    && multiset(order) == multiset(Named(disk, initial, path, order, |order|))
    && (forall i :: 0 <= i < |order| ==> order[i] in Named(disk, initial, path, order, i))
  }

  lemma {:induction false} NamedGrows(disk: Disk, initial: Values, path: string, order: seq<string>, m: nat, n: nat)
    requires m <= n <= |order|
    ensures forall p :: p in Named(disk, initial, path, order, m) ==> p in Named(disk, initial, path, order, n)
    decreases n
  {
    if m < n { NamedGrows(disk, initial, path, order, m, n - 1); }
  }

  /** Included files have not been loaded yet when they are included: in a load that goes through there are no
      cyclic includes. */
  lemma IncludesAreNew(disk: Disk, initial: Values, path: string, order: seq<string>, i: nat, j: nat, p: string)
    requires Complete(disk, initial, path, order) && i <= j < |order|
    requires p in Includes(disk, initial, order, j)
    ensures p != order[i]
  {
    NamedGrows(disk, initial, path, order, i, j);
  }

  lemma {:induction false} NamedPrefix(
    disk: Disk, initial: Values, path: string, a: seq<string>, b: seq<string>, n: nat)
    requires n <= |a| <= |b| && a == b[..|a|]
    ensures Named(disk, initial, path, a, n) == Named(disk, initial, path, b, n)
    ensures n < |a| ==> Includes(disk, initial, a, n) == Includes(disk, initial, b, n)
  {
    if n < |a| { assert a[..n + 1] == b[..n + 1]; }
    if n > 0 { NamedPrefix(disk, initial, path, a, b, n - 1); }
  }

  lemma {:induction false} WorkPrefix(
    disk: Disk, initial: Values, path: string, a: seq<string>, b: seq<string>, n: nat)
    requires n <= |a| <= |b| && a == b[..|a|]
    ensures WorkAt(disk, initial, path, a, n) == WorkAt(disk, initial, path, b, n)
  {
    hide Includes, Named;
    if n > 0 {
      NamedPrefix(disk, initial, path, a, b, n - 1);
      WorkPrefix(disk, initial, path, a, b, n - 1);
    }
  }

  lemma LastFirstMore(disk: Disk, initial: Values, path: string, order: seq<string>, next: string)
    requires LastFirst(disk, initial, path, order)
    requires var work := WorkAt(disk, initial, path, order, |order|); work != [] && work[|work| - 1] == next
    ensures LastFirst(disk, initial, path, order + [next])
    ensures var work := WorkAt(disk, initial, path, order, |order|);
            WorkAt(disk, initial, path, order + [next], |order| + 1) ==
            work[..|work| - 1] + Includes(disk, initial, order + [next], |order|)
  {
    hide WorkAt, Includes;
    var more := order + [next];
    forall i | 0 <= i <= |order|
      ensures WorkAt(disk, initial, path, order, i) == WorkAt(disk, initial, path, more, i)
    {
      WorkPrefix(disk, initial, path, order, more, i);
    }
    WorkStep(disk, initial, path, more, |order|);
  }

  lemma WorkStep(disk: Disk, initial: Values, path: string, order: seq<string>, n: nat)
    requires n < |order| && WorkAt(disk, initial, path, order, n) != []
    ensures var work := WorkAt(disk, initial, path, order, n);
            WorkAt(disk, initial, path, order, n + 1) == work[..|work| - 1] + Includes(disk, initial, order, n)
  {
  }

  // ---- the work list ----

  /** The load stands here: what the files loaded so far have named is loaded or on the work list. */
  ghost predicate Loading(disk: Disk, initial: Values, path: string, order: seq<string>, work: seq<string>,
                          seen: set<string>, values: Values) {
    var named := Named(disk, initial, path, order, |order|);
    && (exists last :: LoadInOrder(disk, initial, order) == Ok((values, last)))
    && NoneSeenTwice(disk, initial, path, order)
    && multiset(order) + multiset(work) == multiset(named)
    && LastFirst(disk, initial, path, order) && work == WorkAt(disk, initial, path, order, |order|)
    && (forall p :: p in seen <==> p in named)
    && (order == [] ==> work == [path]) && (order != [] ==> order[0] == path)
    && (forall i :: 0 <= i < |order| ==> order[i] in Named(disk, initial, path, order, i))
  }

  /** Why a load fails: a file fails, or includes one that was named before. */
  ghost predicate Fails(disk: Disk, initial: Values, path: string, order: seq<string>, e: Error) {
    && order != [] && LastFirst(disk, initial, path, order)
    && NoneSeenTwice(disk, initial, path, order[..|order| - 1])
    && match LoadInOrder(disk, initial, order)
    case Err(f) => f == e
    case Ok((_, paths)) =>
      e == SeenTwice && exists p :: p in paths && p in Named(disk, initial, path, order, |order| - 1)
  }

  lemma LoadBegins(disk: Disk, initial: Values, path: string)
    ensures Loading(disk, initial, path, [], [path], {path}, initial)
  {
  }

  lemma LoadEnds(disk: Disk, initial: Values, path: string, order: seq<string>, seen: set<string>, values: Values)
    requires Loading(disk, initial, path, order, [], seen, values)
    ensures Complete(disk, initial, path, order)
  {
  }

  /** One more file. */
  lemma LoadStep(disk: Disk, initial: Values, path: string, order: seq<string>, work: seq<string>, next: string,
                 seen: set<string>, values: Values, after: Result<(Values, seq<string>)>)
    requires Loading(disk, initial, path, order, work + [next], seen, values)
    requires after == LoadFile(disk, values, next, order == [], ArgKeys(initial))
    ensures after.Err? ==> Fails(disk, initial, path, order + [next], after.error)
    ensures after.Ok? && (exists p :: p in after.value.1 && p in seen) ==>
              Fails(disk, initial, path, order + [next], SeenTwice)
    ensures after.Ok? && (forall p :: p in after.value.1 ==> p !in seen) ==>
              Loading(disk, initial, path, order + [next], work + after.value.1,
                      seen + (set p | p in after.value.1), after.value.0)
  {
    hide LoadFile, ArgKeys, Includes, LastFirst, NoneSeenTwice;
    var more := order + [next];
    var n := |order|;
    LastFirstMore(disk, initial, path, order, next);
    assert more[..n] == order && more[..n + 1] == more;
    assert LoadInOrder(disk, initial, more) == after;
    NamedPrefix(disk, initial, path, order, more, n);
    if after.Ok? && forall p :: p in after.value.1 ==> p !in seen {
      var paths := after.value.1;
      StepGoesOn(disk, initial, path, order, work, next, seen, values, after.value.0, paths);
    }
  }

  lemma StepGoesOn(disk: Disk, initial: Values, path: string, order: seq<string>, work: seq<string>, next: string,
                   seen: set<string>, was: Values, now: Values, paths: seq<string>)
    requires Loading(disk, initial, path, order, work + [next], seen, was)
    requires LoadInOrder(disk, initial, order + [next]) == Ok((now, paths))
    requires forall p :: p in paths ==> p !in seen
    ensures Loading(disk, initial, path, order + [next], work + paths, seen + (set p | p in paths), now)
  {
    hide LoadInOrder, NoneSeenTwice, Named, LastFirst, WorkAt;
    var more := order + [next];
    var n := |order|;
    LastFirstMore(disk, initial, path, order, next);
    assert (work + [next])[..|work|] == work;
    assert more[..n + 1] == more;
    assert Includes(disk, initial, more, n) == paths;
    NamedOneMore(disk, initial, path, order, next, paths);
    NextIsNamed(disk, initial, path, order, work, next);
    StepKeeps(disk, initial, path, order, next);
    assert multiset(work + paths) == multiset(work) + multiset(paths);
    assert multiset(work + [next]) == multiset(work) + multiset{next};
  }

  lemma NamedOneMore(disk: Disk, initial: Values, path: string, order: seq<string>, next: string, paths: seq<string>)
    requires Includes(disk, initial, order + [next], |order|) == paths
    ensures Named(disk, initial, path, order + [next], |order| + 1) ==
            Named(disk, initial, path, order, |order|) + paths
  {
    hide Includes;
    NamedPrefix(disk, initial, path, order, order + [next], |order|);
  }

  lemma NextIsNamed(disk: Disk, initial: Values, path: string, order: seq<string>, work: seq<string>, next: string)
    requires multiset(order) + multiset(work + [next]) == multiset(Named(disk, initial, path, order, |order|))
    ensures next in Named(disk, initial, path, order, |order|)
  {
    assert next in work + [next];
    assert next in multiset(order) + multiset(work + [next]);
  }

  /** What holds of the files before is not changed by the next one. */
  lemma StepKeeps(disk: Disk, initial: Values, path: string, order: seq<string>, next: string)
    requires NoneSeenTwice(disk, initial, path, order)
    requires forall i :: 0 <= i < |order| ==> order[i] in Named(disk, initial, path, order, i)
    requires next in Named(disk, initial, path, order, |order|)
    requires forall p :: p in Includes(disk, initial, order + [next], |order|) ==>
               p !in Named(disk, initial, path, order, |order|)
    ensures NoneSeenTwice(disk, initial, path, order + [next])
    ensures forall i :: 0 <= i <= |order| ==> (order + [next])[i] in Named(disk, initial, path, order + [next], i)
  {
    hide Includes, Named;
    var more := order + [next];
    forall i | 0 <= i <= |order|
      ensures more[i] in Named(disk, initial, path, more, i)
      ensures forall p :: p in Includes(disk, initial, more, i) ==> p !in Named(disk, initial, path, more, i)
    {
      NamedPrefix(disk, initial, path, order, more, i);
    }
  }

  function Unseen(disk: Disk, seen: set<string>): set<string> {
    disk.files.Keys - seen
  }

  lemma LoadingMeans(disk: Disk, initial: Values, path: string, order: seq<string>, work: seq<string>,
                     seen: set<string>, values: Values)
    requires Loading(disk, initial, path, order, work, seen, values)
    ensures exists last :: LoadInOrder(disk, initial, order) == Ok((values, last))
  {
  }

  /** New names leave fewer files unseen, or the next name is of no file. */
  lemma ProgressMade(disk: Disk, seen: set<string>, newPaths: seq<string>, work: seq<string>)
    requires forall p :: p in newPaths ==> p !in seen
    ensures |Unseen(disk, seen + set p | p in newPaths)| <= |Unseen(disk, seen)|
    ensures newPaths != [] && newPaths[|newPaths| - 1] in disk.files ==>
              |Unseen(disk, seen + set p | p in newPaths)| < |Unseen(disk, seen)|
  {
    var now := seen + set p | p in newPaths;
    Shrinks(Unseen(disk, now), Unseen(disk, seen));
    if newPaths != [] && newPaths[|newPaths| - 1] in disk.files {
      var last := newPaths[|newPaths| - 1];
      assert last in newPaths;
      Shrinks(Unseen(disk, now), Unseen(disk, seen) - {last});
    }
  }

  lemma Shrinks(a: set<string>, b: set<string>)
    requires a <= b
    ensures |a| <= |b|
  {
    assert b == a + (b - a);
  }

  // ---- what a load leaves behind ----

  /** The values after the keys of a file in turn, up to the first that fails. */
  function EntriesEffect(target: Values, entries: seq<(string, Value)>, isFirst: bool, argKeys: set<string>): Values {
    if entries == [] then target
    else
      var front, last := entries[..|entries| - 1], entries[|entries| - 1];
      match LoadEntries(target, front, isFirst, argKeys)
      case Err(_) => EntriesEffect(target, front, isFirst, argKeys)
      case Ok((values, imports)) =>
        match LoadEntry(values, imports, last, isFirst, argKeys)
        case Err(_) => values
        case Ok((now, _)) => now
  }

  function FileEffect(disk: Disk, target: Values, path: string, isFirst: bool, argKeys: set<string>): Values {
    if path in disk.files && disk.files[path].Entries? then
      EntriesEffect(target, disk.files[path].entries, isFirst, argKeys)
    else
      target
  }

  function EffectInOrder(disk: Disk, initial: Values, order: seq<string>): Values {
    if order == [] then initial
    else
      match LoadInOrder(disk, initial, order[..|order| - 1])
      case Err(_) => EffectInOrder(disk, initial, order[..|order| - 1])
      case Ok((values, _)) => FileEffect(disk, values, order[|order| - 1], |order| == 1, ArgKeys(initial))
  }

  lemma EffectOfLoad(disk: Disk, initial: Values, order: seq<string>)
    ensures var r := LoadInOrder(disk, initial, order); r.Ok? ==> EffectInOrder(disk, initial, order) == r.value.0
  {
    if order != [] {
      var r := LoadInOrder(disk, initial, order[..|order| - 1]);
      if r.Ok? { EffectOfFile(disk, r.value.0, order[|order| - 1], |order| == 1, ArgKeys(initial)); }
    }
  }

  lemma EffectStep(disk: Disk, initial: Values, order: seq<string>, next: string, values: Values)
    requires exists last :: LoadInOrder(disk, initial, order) == Ok((values, last))
    ensures EffectInOrder(disk, initial, order + [next]) ==
            FileEffect(disk, values, next, order == [], ArgKeys(initial))
  {
    hide LoadInOrder, FileEffect;
    assert (order + [next])[..|order|] == order;
  }

  lemma EffectOfFile(disk: Disk, target: Values, path: string, isFirst: bool, argKeys: set<string>)
    ensures var r := LoadFile(disk, target, path, isFirst, argKeys);
            r.Ok? ==> FileEffect(disk, target, path, isFirst, argKeys) == r.value.0
  {
  }

  /** After a failure among the first entries the others have no effect. */
  lemma {:induction false} EffectStops(
    target: Values, entries: seq<(string, Value)>, n: nat, isFirst: bool, argKeys: set<string>)
    requires n < |entries|
    requires LoadEntries(target, entries[..n], isFirst, argKeys).Ok?
    requires var r := LoadEntries(target, entries[..n], isFirst, argKeys).value;
             LoadEntry(r.0, r.1, entries[n], isFirst, argKeys).Err?
    ensures EntriesEffect(target, entries, isFirst, argKeys) ==
            LoadEntries(target, entries[..n], isFirst, argKeys).value.0
    decreases |entries|
  {
    var front := entries[..|entries| - 1];
    if n < |entries| - 1 {
      assert front[..n] == entries[..n];
      EffectStops(target, front, n, isFirst, argKeys);
      assert front[..n + 1] == entries[..n + 1] && entries[..n + 1][..n] == entries[..n];
      LoadEntriesFail(target, front, n + 1, isFirst, argKeys);
    }
  }

  lemma EffectOfEntries(target: Values, entries: seq<(string, Value)>, isFirst: bool, argKeys: set<string>)
    ensures var r := LoadEntries(target, entries, isFirst, argKeys);
            r.Ok? ==> EntriesEffect(target, entries, isFirst, argKeys) == r.value.0
  {
  }

  /** The result of loading these files in this order. */
  ghost predicate Outcome(disk: Disk, initial: Values, path: string, order: seq<string>, r: Result<Values>) {
    match r
    case Ok(values) =>
      Complete(disk, initial, path, order) && exists last :: LoadInOrder(disk, initial, order) == Ok((values, last))
    case Err(e) => Fails(disk, initial, path, order, e)
  }

  /** A load ends with these files loaded in this order, or with the last of them failing. */
  ghost predicate Ends(disk: Disk, initial: Values, path: string, order: seq<string>) {
    exists r :: Outcome(disk, initial, path, order, r)
  }

  ghost predicate ListsKept(initial: Values, now: Values) {
    forall k :: k in initial && initial[k].List? ==> k in now && now[k] == initial[k]
  }

  /** The keys whose lists no file can extend: includes are never stored, and a command line field that has a value is
      left alone. */
  predicate Protected(key: string) {
    key == "import_cfgs" || key in CMDLINE_FIELDS
  }

  /** No list in the initial values is under a key that files can extend. */
  ghost predicate NoGrowingList(initial: Values) {
    forall k :: k in initial && initial[k].List? ==> Protected(k)
  }

  lemma {:induction false} EntriesKeep(
    target: Values, entries: seq<(string, Value)>, isFirst: bool, argKeys: set<string>, k: string)
    requires k in target && (k == "import_cfgs" || k in argKeys)
    ensures var now := EntriesEffect(target, entries, isFirst, argKeys); k in now && now[k] == target[k]
    ensures var r := LoadEntries(target, entries, isFirst, argKeys);
            r.Ok? ==> k in r.value.0 && r.value.0[k] == target[k]
  {
    if entries != [] { EntriesKeep(target, entries[..|entries| - 1], isFirst, argKeys, k); }
  }

  lemma {:induction false} OrderKeeps(disk: Disk, initial: Values, order: seq<string>, k: string)
    requires k in initial && Protected(k)
    ensures var now := EffectInOrder(disk, initial, order); k in now && now[k] == initial[k]
    ensures var r := LoadInOrder(disk, initial, order); r.Ok? ==> k in r.value.0 && r.value.0[k] == initial[k]
  {
    if order != [] {
      var front, last := order[..|order| - 1], order[|order| - 1];
      OrderKeeps(disk, initial, front, k);
      EffectOfLoad(disk, initial, order);
      var r := LoadInOrder(disk, initial, front);
      if r.Ok? && last in disk.files && disk.files[last].Entries? {
        EntriesKeep(r.value.0, disk.files[last].entries, |order| == 1, ArgKeys(initial), k);
      }
    }
  }

  /** One file that extends the list under a key. */
  function Extending(key: string): Disk {
    Disk(map["f" := Entries([(key, List([Null]))])], (v, values) => None)
  }

  lemma ExtendingGrows(initial: Values, key: string)
    requires key in initial && initial[key].List? && !Protected(key)
    ensures Complete(Extending(key), initial, "f", ["f"])
    ensures EffectInOrder(Extending(key), initial, ["f"]) == initial[key := List(initial[key].items + [Null])]
    ensures var r := LoadInOrder(Extending(key), initial, ["f"]); r.Ok? && r.value.1 == []
  {
    var disk, entry := Extending(key), (key, List([Null]));
    var now := initial[key := List(initial[key].items + [Null])];
    assert [entry][..0] == [] && ["f"][..0] == [];
    assert LoadEntries(initial, [entry], true, ArgKeys(initial)) == Ok((now, []));
    assert LoadInOrder(disk, initial, ["f"]) == Ok((now, []));
    EffectOfLoad(disk, initial, ["f"]);
    assert ["f"][..1] == ["f"];
    assert Includes(disk, initial, ["f"], 0) == [];
    assert Named(disk, initial, "f", ["f"], 0) == ["f"] && Named(disk, initial, "f", ["f"], 1) == ["f"];
    assert WorkAt(disk, initial, "f", ["f"], 0) == ["f"] && WorkAt(disk, initial, "f", ["f"], 1) == [];
  }

  /** If the first file includes nothing it is the only one. */
  lemma OnlyFile(disk: Disk, initial: Values, path: string, order: seq<string>)
    requires order != [] && LastFirst(disk, initial, path, order)
    requires LoadInOrder(disk, initial, [path]).Ok? && LoadInOrder(disk, initial, [path]).value.1 == []
    ensures order == [path]
  {
    hide LoadInOrder;
    assert WorkAt(disk, initial, path, order, 0) == [path];
    assert order[0] == path && order[..1] == [path];
    assert Includes(disk, initial, order, 0) == [];
    assert WorkAt(disk, initial, path, order, 1) == [];
  }

  lemma OutcomeOrder(disk: Disk, initial: Values, path: string, order: seq<string>, r: Result<Values>)
    requires Outcome(disk, initial, path, order, r)
    ensures order != [] && LastFirst(disk, initial, path, order)
  {
    hide LastFirst, NoneSeenTwice, WorkAt, Named, LoadInOrder;
  }

  /** The lists among the initial values are left as they are by every load, whatever files there are and however it
      ends, if and only if each of them is under a protected key. */
  lemma InitialListsKept(initial: Values)
    ensures (forall disk, path, order :: Ends(disk, initial, path, order) ==>
               ListsKept(initial, EffectInOrder(disk, initial, order))) <==> NoGrowingList(initial)
  {
    hide Ends, EffectInOrder, Extending;
    if NoGrowingList(initial) {
      forall disk, path, order | Ends(disk, initial, path, order)
        ensures ListsKept(initial, EffectInOrder(disk, initial, order))
      {
        forall k | k in initial && initial[k].List?
          ensures k in EffectInOrder(disk, initial, order) && EffectInOrder(disk, initial, order)[k] == initial[k]
        {
          OrderKeeps(disk, initial, order, k);
        }
      }
    } else {
      var k :| k in initial && initial[k].List? && !Protected(k);
      SomeListGrows(initial, k);
    }
  }

  lemma SomeListGrows(initial: Values, k: string)
    requires k in initial && initial[k].List? && !Protected(k)
    ensures Ends(Extending(k), initial, "f", ["f"])
    ensures !ListsKept(initial, EffectInOrder(Extending(k), initial, ["f"]))
  {
    hide Complete, LoadInOrder, Extending, EffectInOrder, Fails;
    var disk := Extending(k);
    ExtendingGrows(initial, k);
    assert Outcome(disk, initial, "f", ["f"], Ok(LoadInOrder(disk, initial, ["f"]).value.0));
    assert |initial[k].items + [Null]| != |initial[k].items|;
  }

  // ---- files that are loaded twice ----

  lemma {:induction false} NamedDistinct(disk: Disk, initial: Values, path: string, order: seq<string>, n: nat)
    requires NoneSeenTwice(disk, initial, path, order) && n <= |order|
    ensures Distinct(Named(disk, initial, path, order, n)) <==>
              forall i :: 0 <= i < n ==> Distinct(Includes(disk, initial, order, i))
  {
    if n > 0 {
      var a, b := Named(disk, initial, path, order, n - 1), Includes(disk, initial, order, n - 1);
      assert Named(disk, initial, path, order, n) == a + b;
      hide Includes, Distinct, Named;
      NamedDistinct(disk, initial, path, order, n - 1);
      assert forall p :: p in b ==> p !in a;
      DistinctConcat(a, b);
    }
  }

  /** In a load that goes through, every file is merged only once if and only if no list of includes names a file
      twice. */
  lemma MergedOnce(disk: Disk, initial: Values, path: string, order: seq<string>)
    requires Complete(disk, initial, path, order)
    ensures Distinct(order) <==> forall i :: 0 <= i < |order| ==> Distinct(Includes(disk, initial, order, i))
  {
    var named := Named(disk, initial, path, order, |order|);
    DistinctByCounts(order);
    DistinctByCounts(named);
    NamedDistinct(disk, initial, path, order, |order|);
  }

  /** The includes a file asks for, before wildcards are expanded. */
  function ImportNames(entries: seq<(string, Value)>, argKeys: set<string>): seq<Value> {
    if entries == [] then []
    else
      var (key, v) := entries[|entries| - 1];
      ImportNames(entries[..|entries| - 1], argKeys) +
      if key !in argKeys && key == "import_cfgs" && v.List? then v.items else []
  }

  lemma {:induction false} LoadedImports(
    target: Values, entries: seq<(string, Value)>, isFirst: bool, argKeys: set<string>)
    ensures var r := LoadEntries(target, entries, isFirst, argKeys);
            r.Ok? ==> r.value.1 == ImportNames(entries, argKeys)
  {
    if entries != [] { LoadedImports(target, entries[..|entries| - 1], isFirst, argKeys); }
  }

  /** Wildcards in the names of includes do not depend on the values merged so far. */
  ghost predicate FixedNames(disk: Disk) {
    forall v, a, b :: disk.expand(v, a) == disk.expand(v, b)
  }

  lemma {:induction false} SameExpansion(disk: Disk, names: seq<Value>, a: Values, b: Values)
    requires FixedNames(disk)
    ensures ExpandAll(disk, names, a) == ExpandAll(disk, names, b)
  {
    if names != [] { SameExpansion(disk, names[..|names| - 1], a, b); }
  }

  lemma SameIncludes(disk: Disk, a: Values, b: Values, path: string, first: bool, argKeys: set<string>)
    requires FixedNames(disk)
    requires LoadFile(disk, a, path, first, argKeys).Ok? && LoadFile(disk, b, path, false, argKeys).Ok?
    ensures LoadFile(disk, a, path, first, argKeys).value.1 == LoadFile(disk, b, path, false, argKeys).value.1
  {
    var entries := disk.files[path].entries;
    LoadedImports(a, entries, first, argKeys);
    LoadedImports(b, entries, false, argKeys);
    SameExpansion(disk, ImportNames(entries, argKeys),
                  LoadEntries(a, entries, first, argKeys).value.0, LoadEntries(b, entries, false, argKeys).value.0);
  }

  lemma {:induction false} PrefixLoads(disk: Disk, initial: Values, order: seq<string>, n: nat)
    requires n <= |order| && LoadInOrder(disk, initial, order).Ok?
    ensures LoadInOrder(disk, initial, order[..n]).Ok?
    decreases |order|
  {
    if n == |order| {
      assert order[..n] == order;
    } else {
      var front := order[..|order| - 1];
      PrefixLoads(disk, initial, front, n);
      assert front[..n] == order[..n];
    }
  }

  /** A file that is merged twice in a load that goes through includes nothing. */
  lemma RepeatedIncludesNothing(disk: Disk, initial: Values, path: string, order: seq<string>, i: nat, j: nat)
    requires Complete(disk, initial, path, order) && LoadInOrder(disk, initial, order).Ok? && FixedNames(disk)
    requires i < j < |order| && order[i] == order[j]
    ensures Includes(disk, initial, order, i) == Includes(disk, initial, order, j) == []
  {
    hide *;
    var a := IncludesOfFile(disk, initial, order, i);
    var b := IncludesOfFile(disk, initial, order, j);
    SameIncludes(disk, a, b, order[i], i == 0, ArgKeys(initial));
    NothingNamedTwice(disk, initial, path, order, i, j);
  }

  lemma IncludesOfFile(disk: Disk, initial: Values, order: seq<string>, i: nat) returns (before: Values)
    requires i < |order| && LoadInOrder(disk, initial, order).Ok?
    ensures var r := LoadFile(disk, before, order[i], i == 0, ArgKeys(initial));
            r.Ok? && Includes(disk, initial, order, i) == r.value.1
  {
    hide LoadFile;
    PrefixLoads(disk, initial, order, i);
    PrefixLoads(disk, initial, order, i + 1);
    assert order[..i + 1][..i] == order[..i];
    before := LoadInOrder(disk, initial, order[..i]).value.0;
  }

  lemma NothingNamedTwice(disk: Disk, initial: Values, path: string, order: seq<string>, i: nat, j: nat)
    requires Complete(disk, initial, path, order) && i < j < |order|
    requires Includes(disk, initial, order, i) == Includes(disk, initial, order, j)
    ensures Includes(disk, initial, order, i) == []
  {
    hide Includes, LastFirst, WorkAt;
    var names := Includes(disk, initial, order, i);
    FirstMember(names);
    NamedGrows(disk, initial, path, order, i + 1, j);
    assert Named(disk, initial, path, order, i + 1) == Named(disk, initial, path, order, i) + names;
  }

  /** A file that names the same include twice. */
  function Twice(): Disk {
    Disk(map["main" := Entries([("import_cfgs", List([Str("a"), Str("a")]))]),
             "a" := Entries([("xs", List([Int(1)]))])],
         (v: Value, values) => if v.Str? then Some(v.text) else None)
  }

  /** The include is merged twice, and its list is there twice. */
  lemma MergedTwiceExample()
    ensures Complete(Twice(), map[], "main", ["main", "a", "a"])
    ensures LoadInOrder(Twice(), map[], ["main", "a", "a"]) == Ok((map["xs" := List([Int(1), Int(1)])], []))
  {
    var disk, order := Twice(), ["main", "a", "a"];
    var once: Values, twice: Values := map["xs" := List([Int(1)])], map["xs" := List([Int(1), Int(1)])];
    TwiceFiles();
    assert order[..1] == ["main"] && order[..2] == ["main", "a"] && order[..3] == order;
    assert ["main"][..0] == [] && ["main", "a"][..1] == ["main"];
    assert LoadInOrder(disk, map[], ["main"]) == Ok((map[], ["a", "a"]));
    assert LoadInOrder(disk, map[], ["main", "a"]) == Ok((once, []));
    assert LoadInOrder(disk, map[], order) == Ok((twice, []));
    hide LoadInOrder;
    assert Includes(disk, map[], order, 0) == ["a", "a"];
    assert Includes(disk, map[], order, 1) == [] && Includes(disk, map[], order, 2) == [];
    TwiceWork(disk, order);
  }

  lemma TwiceFiles()
    ensures var disk, once, twice := Twice(), map["xs" := List([Int(1)])], map["xs" := List([Int(1), Int(1)])];
            && LoadFile(disk, map[], "main", true, {}) == Ok((map[], ["a", "a"]))
            && LoadFile(disk, map[], "a", false, {}) == Ok((once, []))
            && LoadFile(disk, once, "a", false, {}) == Ok((twice, []))
  {
    var disk := Twice();
    var main, a := ("import_cfgs", List([Str("a"), Str("a")])), ("xs", List([Int(1)]));
    var names := [Str("a"), Str("a")];
    assert [main][..0] == [] && [a][..0] == [] && [] + names == names;
    assert "import_cfgs" != "xs" && "use_cfgs" != "xs" by { assert |"xs"| == 2; }
    var once: Values, twice: Values := map["xs" := List([Int(1)])], map["xs" := List([Int(1), Int(1)])];
    assert [Int(1)] + [Int(1)] == [Int(1), Int(1)] && once["xs" := List([Int(1), Int(1)])] == twice;
    assert LoadEntry(map[], [], a, false, {}) == Ok((once, [])) && LoadEntry(once, [], a, false, {}) == Ok((twice, []));
    assert LoadEntry(map[], [], main, true, {}) == Ok((map[], names));
    assert LoadEntries(map[], [main], true, {}) == Ok((map[], names));
    hide LoadEntry, Merge;
    TwiceNames(disk);
  }

  lemma TwiceNames(disk: Disk)
    requires disk == Twice()
    ensures forall values :: ExpandAll(disk, [], values) == Ok([])
    ensures ExpandAll(disk, [Str("a"), Str("a")], map[]) == Ok(["a", "a"])
  {
    var names, one := [Str("a"), Str("a")], [Str("a")];
    assert names[..1] == one && one[..0] == [];
    assert disk.expand(Str("a"), map[]) == Some("a");
    assert [] + ["a"] == ["a"] && ["a"] + ["a"] == ["a", "a"];
    assert ExpandAll(disk, one, map[]) == Ok(["a"]);
  }

  lemma TwiceNamed(disk: Disk, order: seq<string>)
    requires order == ["main", "a", "a"]
    requires Includes(disk, map[], order, 0) == ["a", "a"]
    requires Includes(disk, map[], order, 1) == [] && Includes(disk, map[], order, 2) == []
    ensures Named(disk, map[], "main", order, 0) == ["main"]
    ensures Named(disk, map[], "main", order, 1) == Named(disk, map[], "main", order, 2) == order
    ensures Named(disk, map[], "main", order, 3) == order
  {
    hide Includes;
  }

  lemma TwiceWorkList(disk: Disk, order: seq<string>)
    requires order == ["main", "a", "a"]
    requires Includes(disk, map[], order, 0) == ["a", "a"]
    requires Includes(disk, map[], order, 1) == [] && Includes(disk, map[], order, 2) == []
    ensures WorkAt(disk, map[], "main", order, 0) == ["main"]
    ensures WorkAt(disk, map[], "main", order, 1) == ["a", "a"]
    ensures WorkAt(disk, map[], "main", order, 2) == ["a"] && WorkAt(disk, map[], "main", order, 3) == []
  {
    hide Includes;
  }

  lemma TwiceWork(disk: Disk, order: seq<string>)
    requires order == ["main", "a", "a"]
    requires Includes(disk, map[], order, 0) == ["a", "a"]
    requires Includes(disk, map[], order, 1) == [] && Includes(disk, map[], order, 2) == []
    ensures Complete(disk, map[], "main", order)
  {
    hide Includes, Named, WorkAt;
    TwiceNamed(disk, order);
    TwiceWorkList(disk, order);
    assert "main" != "a" by { assert |"a"| == 1; }
  }
}
