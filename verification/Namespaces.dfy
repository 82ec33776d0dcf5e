/** Module namespaces of the bundler, in src/runtime.js: `__toESM` makes one for a CommonJS module and
    `__reExport` adds what `export *` brings. Both define getters that read the module when they are read. */
module Namespaces {
  import opened Lists

  type Id = nat

  datatype Key = Default | EsModule | Named(name: string)

  datatype Value = Undefined | Null | Primitive(truthy: bool, tag: int) | Ref(id: Id)

  datatype Kind = Plain | Function | ByteView

  /** An own property. `age` counts the calls before the one that defined it. A getter reads the same key of
      another object. Neither it nor a fixed value can be changed or deleted: it is not configurable. */
  datatype Prop = Data(age: nat, value: Value) | Fixed(age: nat, value: Value) | Getter(age: nat, from: Id)

  datatype Object = Object(kind: Kind, inherits: map<Key, Value>, props: map<Key, Prop>)

  datatype State = State(objects: seq<Object>, cacheNode: map<Id, Id>, cacheEsm: map<Id, Id>, clock: nat)

  predicate Truthy(v: Value) {
    v.Ref? || (v.Primitive? && v.truthy)
  }

  /** A getter reads a property that is older than itself. */
  predicate IsSound(s: State, k: Key, p: Prop) {
    && p.age < s.clock
    && (p.Getter? ==> p.from < |s.objects| && k in s.objects[p.from].props && s.objects[p.from].props[k].age < p.age)
  }

  ghost predicate Valid(s: State) {
    && (forall i, k :: 0 <= i < |s.objects| && k in s.objects[i].props ==> IsSound(s, k, s.objects[i].props[k]))
    && (forall m :: m in s.cacheNode ==> s.cacheNode[m] < |s.objects|)
    && (forall m :: m in s.cacheEsm ==> s.cacheEsm[m] < |s.objects|)
  }

  predicate Exists(s: State, v: Value) {
    v.Ref? ==> v.id < |s.objects|
  }

  /** `object[k]`. Getters lead to ever older properties, so this ends. */
  function Read(s: State, id: Id, k: Key): Value
    requires Valid(s) && id < |s.objects|
    decreases if k in s.objects[id].props then s.objects[id].props[k].age + 1 else 0
  {
    var o := s.objects[id];
    if k !in o.props then (if k in o.inherits then o.inherits[k] else Undefined)
    else
      assert IsSound(s, k, o.props[k]);
      match o.props[k]
      case Data(_, value) => value
      case Fixed(_, value) => value
      case Getter(_, from) => Read(s, from, k)
  }

  predicate HasOwn(s: State, id: Id, k: Key)
    requires id < |s.objects|
  {
    k in s.objects[id].props
  }

  // ---------- what can happen ----------

  datatype Event =
    | New(kind: Kind, inherits: map<Key, Value>, values: map<Key, Value>)
    | Write(id: Id, key: Key, value: Value)
    | ToESM(mod: Value, isNodeMode: bool)
    | ReExport(target: Id, mod: Value, secondTarget: Option<Id>)

  predicate Possible(s: State, e: Event) {
    match e
    case New(_, _, _) => true
    case Write(id, _, _) => id < |s.objects|
    case ToESM(mod, _) => Exists(s, mod)
    case ReExport(target, mod, second) =>
      target < |s.objects| && Exists(s, mod) && (second.Some? ==> second.value < |s.objects|)
  }

  /** An assignment to a property that only has a getter, or is not writable, is without effect. */
  function WriteProp(s: State, id: Id, k: Key, v: Value): State
    requires id < |s.objects|
  {
    var o := s.objects[id];
    if k !in o.props then s.(objects := s.objects[id := o.(props := o.props[k := Data(s.clock, v)])], clock := s.clock + 1)
    else if o.props[k].Data? then
      s.(objects := s.objects[id := o.(props := o.props[k := Data(o.props[k].age, v)])], clock := s.clock + 1)
    else s.(clock := s.clock + 1)
  }

  function Cacheable(s: State, mod: Value): bool
    requires Exists(s, mod)
  {
    mod.Ref? && !s.objects[mod.id].kind.Function?
  }

  function Cache(s: State, isNodeMode: bool): map<Id, Id> {
    if isNodeMode then s.cacheNode else s.cacheEsm
  }

  /** "default" is the module itself, and not a property of the module. */
  predicate DefaultIsModule(s: State, mod: Value, isNodeMode: bool)
    requires Valid(s) && Exists(s, mod)
  {
    isNodeMode || !mod.Ref? || !Truthy(Read(s, mod.id, EsModule)) || !HasOwn(s, mod.id, Default)
  }

  /** `__getOwnPropNames(mod)` where it is asked for. */
  function NamesOf(s: State, mod: Value): set<Key>
    requires Exists(s, mod)
  {
    if mod.Ref? then s.objects[mod.id].props.Keys else {}
  }

  predicate HasNames(s: State, mod: Value)
    requires Exists(s, mod)
  {
    mod.Ref? && !s.objects[mod.id].kind.ByteView?
  }

  /** A getter for each of `keys` that is no property yet. */
  function Bind(props: map<Key, Prop>, keys: set<Key>, age: nat, from: Id): map<Key, Prop> {
    map k | k in props.Keys + keys :: if k in props then props[k] else Getter(age, from)
  }

  function NamespaceOf(s: State, mod: Value, isNodeMode: bool): Object
    requires Valid(s) && Exists(s, mod)
  {
    var default := if DefaultIsModule(s, mod, isNodeMode) then map[Default := Fixed(s.clock, mod)] else map[];
    Object(Plain, if mod.Ref? then s.objects[mod.id].inherits else map[],
           if HasNames(s, mod) then Bind(default, NamesOf(s, mod), s.clock, mod.id) else default)
  }

  function Remember(s: State, m: Id, isNodeMode: bool, ns: Id): State {
    if isNodeMode then s.(cacheNode := s.cacheNode[m := ns]) else s.(cacheEsm := s.cacheEsm[m := ns])
  }

  predicate IsCached(s: State, mod: Value, isNodeMode: bool)
    requires Exists(s, mod)
  {
    Cacheable(s, mod) && mod.id in Cache(s, isNodeMode)
  }

  /** The namespace that `__toESM` returns. */
  function Returned(s: State, mod: Value, isNodeMode: bool): Id
    requires Exists(s, mod)
  {
    if IsCached(s, mod, isNodeMode) then Cache(s, isNodeMode)[mod.id] else |s.objects|
  }

  function Converted(s: State, mod: Value, isNodeMode: bool): State
    requires Valid(s) && Exists(s, mod)
  {
    if IsCached(s, mod, isNodeMode) then s
    else
      var s' := s.(objects := s.objects + [NamespaceOf(s, mod, isNodeMode)], clock := s.clock + 1);
      if Cacheable(s, mod) then Remember(s', mod.id, isNodeMode, |s.objects|) else s'
  }

  /** `export *` never brings "default". */
  function StarKeys(s: State, mod: Value): set<Key>
    requires Exists(s, mod)
  {
    NamesOf(s, mod) - {Default}
  }

  function BindOn(objects: seq<Object>, target: Id, keys: set<Key>, age: nat, from: Id): seq<Object>
    requires target < |objects|
  {
    var o := objects[target];
    objects[target := o.(props := Bind(o.props, keys, age, from))]
  }

  function ReExported(s: State, target: Id, mod: Value, second: Option<Id>): State
    requires Possible(s, ReExport(target, mod, second))
  {
    if !mod.Ref? then s.(clock := s.clock + 1)
    else
      var keys := StarKeys(s, mod);
      var objects := BindOn(s.objects, target, keys, s.clock, mod.id);
      s.(objects := if second.Some? then BindOn(objects, second.value, keys, s.clock, mod.id) else objects,
         clock := s.clock + 1)
  }

  function Step(s: State, e: Event): State
    requires Valid(s) && Possible(s, e)
  {
    match e
    case New(kind, inherits, values) =>
      s.(objects := s.objects + [Object(kind, inherits, map k | k in values :: Data(s.clock, values[k]))], clock := s.clock + 1)
    case Write(id, k, v) => WriteProp(s, id, k, v)
    case ToESM(mod, isNodeMode) => Converted(s, mod, isNodeMode)
    case ReExport(target, mod, second) => ReExported(s, target, mod, second)
  }

  // ---------- what every step keeps ----------

  /** A property stays, and only the value of a plain one may change. */
  predicate Kept(p: Prop, p': Prop) {
    p'.age == p.age && (if p.Data? then p'.Data? else p' == p)
  }

  predicate ObjectKept(o: Object, o': Object) {
    && o'.kind == o.kind && o'.inherits == o.inherits
    && forall k :: k in o.props ==> k in o'.props && Kept(o.props[k], o'.props[k])
  }

  ghost predicate Extends(s: State, s': State) {
    && |s.objects| <= |s'.objects| && s.clock <= s'.clock
    && (forall i :: 0 <= i < |s.objects| ==> ObjectKept(s.objects[i], s'.objects[i]))
    && (forall m :: m in s.cacheNode ==> m in s'.cacheNode && s'.cacheNode[m] == s.cacheNode[m])
    && (forall m :: m in s.cacheEsm ==> m in s'.cacheEsm && s'.cacheEsm[m] == s.cacheEsm[m])
  }

  lemma ExtendsTwice(a: State, b: State, c: State)
    requires Extends(a, b) && Extends(b, c)
    ensures Extends(a, c)
  {
    forall i | 0 <= i < |a.objects| ensures ObjectKept(a.objects[i], c.objects[i]) {
      assert ObjectKept(a.objects[i], b.objects[i]) && ObjectKept(b.objects[i], c.objects[i]);
    }
  }

  lemma SoundLater(s: State, s': State, k: Key, p: Prop)
    requires Extends(s, s') && IsSound(s, k, p)
    ensures IsSound(s', k, p)
  {
    if p.Getter? {
      assert ObjectKept(s.objects[p.from], s'.objects[p.from]);
    }
  }

  /** The properties of object `i` are sound or were there before. */
  lemma ValidLater(s: State, s': State)
    requires Valid(s) && Extends(s, s')
    requires forall i, k :: 0 <= i < |s'.objects| && k in s'.objects[i].props ==>
               (i < |s.objects| && k in s.objects[i].props) || IsSound(s', k, s'.objects[i].props[k])
    requires forall m :: m in s'.cacheNode ==> s'.cacheNode[m] < |s'.objects|
    requires forall m :: m in s'.cacheEsm ==> s'.cacheEsm[m] < |s'.objects|
    ensures Valid(s')
  {
    forall i, k | 0 <= i < |s'.objects| && k in s'.objects[i].props
      ensures IsSound(s', k, s'.objects[i].props[k])
    {
      if i < |s.objects| && k in s.objects[i].props {
        assert ObjectKept(s.objects[i], s'.objects[i]);
        assert IsSound(s, k, s.objects[i].props[k]);
        SoundLater(s, s', k, s.objects[i].props[k]);
      }
    }
  }

  lemma WriteKeeps(s: State, id: Id, k: Key, v: Value)
    requires Valid(s) && id < |s.objects|
    ensures Extends(s, WriteProp(s, id, k, v)) && Valid(WriteProp(s, id, k, v))
  {
    var s' := WriteProp(s, id, k, v);
    assert forall i :: 0 <= i < |s.objects| ==> ObjectKept(s.objects[i], s'.objects[i]);
    ValidLater(s, s');
  }

  lemma NewKeeps(s: State, kind: Kind, inherits: map<Key, Value>, values: map<Key, Value>)
    requires Valid(s)
    ensures Extends(s, Step(s, New(kind, inherits, values))) && Valid(Step(s, New(kind, inherits, values)))
  {
    var s' := Step(s, New(kind, inherits, values));
    assert forall i :: 0 <= i < |s.objects| ==> ObjectKept(s.objects[i], s'.objects[i]);
    ValidLater(s, s');
  }

  lemma NamespaceIsSound(s: State, mod: Value, isNodeMode: bool, k: Key)
    requires Valid(s) && Exists(s, mod) && k in NamespaceOf(s, mod, isNodeMode).props
    ensures NamespaceOf(s, mod, isNodeMode).props[k].age == s.clock
    ensures NamespaceOf(s, mod, isNodeMode).props[k].Getter? ==>
              NamespaceOf(s, mod, isNodeMode).props[k].from < |s.objects| &&
              k in s.objects[NamespaceOf(s, mod, isNodeMode).props[k].from].props
  {}

  lemma ConvertKeeps(s: State, mod: Value, isNodeMode: bool)
    requires Valid(s) && Exists(s, mod)
    ensures Extends(s, Converted(s, mod, isNodeMode)) && Valid(Converted(s, mod, isNodeMode))
  {
    var s' := Converted(s, mod, isNodeMode);
    assert forall i :: 0 <= i < |s.objects| ==> ObjectKept(s.objects[i], s'.objects[i]);
    if !IsCached(s, mod, isNodeMode) {
      var ns := NamespaceOf(s, mod, isNodeMode);
      forall k | k in ns.props ensures IsSound(s', k, ns.props[k]) {
        NamespaceIsSound(s, mod, isNodeMode, k);
        if ns.props[k].Getter? {
          assert IsSound(s, k, s.objects[ns.props[k].from].props[k]);
        }
      }
      ValidLater(s, s');
    }
  }

  /** New getters that read a property of an older age are sound. */
  lemma BindKeeps(objects: seq<Object>, target: Id, keys: set<Key>, age: nat, from: Id)
    requires target < |objects|
    ensures var objects' := BindOn(objects, target, keys, age, from);
            && |objects'| == |objects|
            && (forall i :: 0 <= i < |objects| ==> ObjectKept(objects[i], objects'[i]))
            && (forall i, k :: 0 <= i < |objects| && k in objects'[i].props && k !in objects[i].props ==>
                  k in keys && objects'[i].props[k] == Getter(age, from))
            && (forall i, k :: 0 <= i < |objects| && k in objects[i].props ==> objects'[i].props[k] == objects[i].props[k])
  {}

  lemma ReExportKeeps(s: State, target: Id, mod: Value, second: Option<Id>)
    requires Valid(s) && Possible(s, ReExport(target, mod, second))
    ensures Extends(s, ReExported(s, target, mod, second)) && Valid(ReExported(s, target, mod, second))
  {
    var s' := ReExported(s, target, mod, second);
    if mod.Ref? {
      var keys := StarKeys(s, mod);
      var middle := BindOn(s.objects, target, keys, s.clock, mod.id);
      BindKeeps(s.objects, target, keys, s.clock, mod.id);
      if second.Some? {
        BindKeeps(middle, second.value, keys, s.clock, mod.id);
      }
      forall i | 0 <= i < |s.objects| ensures ObjectKept(s.objects[i], s'.objects[i]) {
        assert ObjectKept(s.objects[i], middle[i]);
      }
      forall i, k | 0 <= i < |s'.objects| && k in s'.objects[i].props && k !in s.objects[i].props
        ensures IsSound(s', k, s'.objects[i].props[k])
      {
        assert k in keys && s'.objects[i].props[k] == Getter(s.clock, mod.id);
        assert IsSound(s, k, s.objects[mod.id].props[k]);
        assert ObjectKept(s.objects[mod.id], s'.objects[mod.id]);
      }
    }
    ValidLater(s, s');
  }

  /** Every step keeps the properties that are there, and no getter ever leads back to itself. */
  lemma StepKeeps(s: State, e: Event)
    requires Valid(s) && Possible(s, e)
    ensures Extends(s, Step(s, e)) && Valid(Step(s, e))
  {
    match e
    case New(kind, inherits, values) => NewKeeps(s, kind, inherits, values);
    case Write(id, k, v) => WriteKeeps(s, id, k, v);
    case ToESM(mod, isNodeMode) => ConvertKeeps(s, mod, isNodeMode);
    case ReExport(target, mod, second) => ReExportKeeps(s, target, mod, second);
  }

  ghost predicate IsRun(s: State, events: seq<Event>)
    decreases |events|
  {
    events == [] || (Valid(s) && Possible(s, events[0]) && IsRun(Step(s, events[0]), events[1..]))
  }

  ghost function Run(s: State, events: seq<Event>): State
    requires Valid(s) && IsRun(s, events)
    decreases |events|
  {
    if events == [] then s
    else
      StepKeeps(s, events[0]);
      Run(Step(s, events[0]), events[1..])
  }

  lemma {:induction false} RunKeeps(s: State, events: seq<Event>)
    requires Valid(s) && IsRun(s, events)
    ensures Extends(s, Run(s, events)) && Valid(Run(s, events))
    decreases |events|
  {
    if events != [] {
      StepKeeps(s, events[0]);
      RunKeeps(Step(s, events[0]), events[1..]);
      ExtendsTwice(s, Step(s, events[0]), Run(s, events));
    }
  }

  // ---------- live bindings ----------

  lemma NamespaceStays(s: State, mod: Value, isNodeMode: bool, now: State)
    requires Valid(s) && Exists(s, mod) && !IsCached(s, mod, isNodeMode)
    requires Extends(Converted(s, mod, isNodeMode), now)
    ensures |s.objects| < |now.objects| && ObjectKept(NamespaceOf(s, mod, isNodeMode), now.objects[|s.objects|])
  {
    var ns := |s.objects|;
    assert Converted(s, mod, isNodeMode).objects[ns] == NamespaceOf(s, mod, isNodeMode);
    assert ObjectKept(Converted(s, mod, isNodeMode).objects[ns], now.objects[ns]);
  }

  /** The namespace reads what the module holds now, for every key that the module had when it was
      converted, whatever happened since. "default" is the module itself where the rule says so. */
  lemma NamespaceIsLive(s: State, mod: Value, isNodeMode: bool, events: seq<Event>, k: Key)
    requires Valid(s) && Exists(s, mod) && !IsCached(s, mod, isNodeMode)
    requires Valid(Converted(s, mod, isNodeMode)) && IsRun(Converted(s, mod, isNodeMode), events)
    requires HasNames(s, mod) && HasOwn(s, mod.id, k)
    ensures var (now, ns) := (Run(Converted(s, mod, isNodeMode), events), Returned(s, mod, isNodeMode));
            && Valid(now) && ns < |now.objects| && mod.id < |now.objects| && HasOwn(now, ns, k)
            && Read(now, ns, k) ==
               if k.Default? && DefaultIsModule(s, mod, isNodeMode) then mod else Read(now, mod.id, k)
  {
    var first := Converted(s, mod, isNodeMode);
    ConvertKeeps(s, mod, isNodeMode);
    RunKeeps(first, events);
    NamespaceReads(s, mod, isNodeMode, Run(first, events), k);
  }

  /** The namespace in a later state. */
  lemma NamespaceReads(s: State, mod: Value, isNodeMode: bool, now: State, k: Key)
    requires Valid(s) && Exists(s, mod) && !IsCached(s, mod, isNodeMode)
    requires Valid(now) && Extends(Converted(s, mod, isNodeMode), now)
    requires HasNames(s, mod) && HasOwn(s, mod.id, k)
    ensures var ns := Returned(s, mod, isNodeMode);
            && ns < |now.objects| && mod.id < |now.objects| && HasOwn(now, ns, k)
            && Read(now, ns, k) ==
               if k.Default? && DefaultIsModule(s, mod, isNodeMode) then mod else Read(now, mod.id, k)
  {
    NamespaceStays(s, mod, isNodeMode, now);
  }

  /** Where the rule says so, "default" is the module itself for good, also for what has no names. */
  lemma DefaultFollowsTheRule(s: State, mod: Value, isNodeMode: bool, events: seq<Event>)
    requires Valid(s) && Exists(s, mod) && !IsCached(s, mod, isNodeMode)
    requires Valid(Converted(s, mod, isNodeMode)) && IsRun(Converted(s, mod, isNodeMode), events)
    requires DefaultIsModule(s, mod, isNodeMode)
    ensures var (now, ns) := (Run(Converted(s, mod, isNodeMode), events), Returned(s, mod, isNodeMode));
            && Valid(now) && ns < |now.objects| && Read(now, ns, Default) == mod
  {
    var first := Converted(s, mod, isNodeMode);
    ConvertKeeps(s, mod, isNodeMode);
    RunKeeps(first, events);
    DefaultReads(s, mod, isNodeMode, Run(first, events));
  }

  lemma DefaultReads(s: State, mod: Value, isNodeMode: bool, now: State)
    requires Valid(s) && Exists(s, mod) && !IsCached(s, mod, isNodeMode) && DefaultIsModule(s, mod, isNodeMode)
    requires Valid(now) && Extends(Converted(s, mod, isNodeMode), now)
    ensures Returned(s, mod, isNodeMode) < |now.objects| && Read(now, Returned(s, mod, isNodeMode), Default) == mod
  {
    NamespaceStays(s, mod, isNodeMode, now);
  }

  /** The module has names to import, asks to be read as an ES module, and has its own "default". */
  ghost predicate OffersDefault(s: State, mod: Value)
    requires Valid(s) && Exists(s, mod)
  {
    && mod.Ref? && Default in s.objects[mod.id].props
    && var flag := Read(s, mod.id, EsModule);
       flag.Ref? || (flag.Primitive? && flag.truthy)
  }

  /** What "default" of the namespace reads, for each mode and module, whatever happened since: in node mode the
      module itself; otherwise the current "default" of a module that offers one, and the module itself for null,
      undefined, a primitive, a falsy or missing `__esModule` or no own "default". A view of bytes that offers
      one gets neither. */
  lemma DefaultReadsAs(s: State, mod: Value, isNodeMode: bool, events: seq<Event>)
    requires Valid(s) && Exists(s, mod) && !IsCached(s, mod, isNodeMode)
    requires Valid(Converted(s, mod, isNodeMode)) && IsRun(Converted(s, mod, isNodeMode), events)
    ensures var (now, ns) := (Run(Converted(s, mod, isNodeMode), events), Returned(s, mod, isNodeMode));
            && Valid(now) && ns < |now.objects|
            && (if isNodeMode || !OffersDefault(s, mod) then Read(now, ns, Default) == mod
                else if !s.objects[mod.id].kind.ByteView? then
                  mod.id < |now.objects| && Read(now, ns, Default) == Read(now, mod.id, Default)
                else
                  var first := Converted(s, mod, isNodeMode);
                  ns < |first.objects| && first.objects[ns].props == map[])
  {
    var first := Converted(s, mod, isNodeMode);
    ConvertKeeps(s, mod, isNodeMode);
    RunKeeps(first, events);
    if isNodeMode || !OffersDefault(s, mod) {
      DefaultReads(s, mod, isNodeMode, Run(first, events));
    } else if !s.objects[mod.id].kind.ByteView? {
      NamespaceReads(s, mod, isNodeMode, Run(first, events), Default);
    }
  }

  /** The keys of a new namespace: the own keys of an object or a function that is no view of bytes, and "default"
      unless the module offers one outside node mode. */
  lemma NamespaceHasKeys(s: State, mod: Value, isNodeMode: bool, k: Key)
    requires Valid(s) && Exists(s, mod) && !IsCached(s, mod, isNodeMode)
    ensures var (first, ns) := (Converted(s, mod, isNodeMode), Returned(s, mod, isNodeMode));
            && ns < |first.objects|
            && (k in first.objects[ns].props <==>
                || (mod.Ref? && !s.objects[mod.id].kind.ByteView? && k in s.objects[mod.id].props)
                || (k == Default && (isNodeMode || !OffersDefault(s, mod))))
  {}

  /** A module object gets the same namespace each time, per mode. A function gets a new one each time. */
  lemma SameNamespaceAgain(s: State, mod: Value, isNodeMode: bool, events: seq<Event>)
    requires Valid(s) && Exists(s, mod) && mod.Ref?
    requires Valid(Converted(s, mod, isNodeMode)) && IsRun(Converted(s, mod, isNodeMode), events)
    ensures var now := Run(Converted(s, mod, isNodeMode), events);
            && Exists(now, mod)
            && (Returned(now, mod, isNodeMode) == Returned(s, mod, isNodeMode) <==> !s.objects[mod.id].kind.Function?)
  {
    var first := Converted(s, mod, isNodeMode);
    ConvertKeeps(s, mod, isNodeMode);
    RunKeeps(first, events);
    var now := Run(first, events);
    assert ObjectKept(s.objects[mod.id], first.objects[mod.id]) && ObjectKept(first.objects[mod.id], now.objects[mod.id]);
  }

  // ---------- export * ----------

  /** The target gets each own key of the module that it lacks, except "default", and reads it live from
      then on. Its own keys stay what they are. */
  lemma ReExportAdds(s: State, target: Id, mod: Value, second: Option<Id>, k: Key)
    requires Valid(s) && Possible(s, ReExport(target, mod, second)) && mod.Ref?
    ensures var s' := ReExported(s, target, mod, second);
            && target < |s'.objects|
            && (HasOwn(s, target, k) ==> HasOwn(s', target, k) && s'.objects[target].props[k] == s.objects[target].props[k])
            && (!HasOwn(s, target, k) ==>
                  if HasOwn(s, mod.id, k) && !k.Default?
                  then HasOwn(s', target, k) && s'.objects[target].props[k] == Getter(s.clock, mod.id)
                  else !HasOwn(s', target, k))
  {
    BindKeeps(s.objects, target, StarKeys(s, mod), s.clock, mod.id);
  }

  /** With a second target, both get the keys that each of them lacks, and no other object changes. */
  lemma ReExportReachesBoth(s: State, target: Id, mod: Value, second: Option<Id>, o: Id, k: Key)
    requires Valid(s) && Possible(s, ReExport(target, mod, second)) && mod.Ref? && o < |s.objects|
    ensures var s' := ReExported(s, target, mod, second);
            && o < |s'.objects|
            && (if (o == target || second == Some(o)) && !HasOwn(s, o, k) && HasOwn(s, mod.id, k) && k != Default
                then HasOwn(s', o, k) && s'.objects[o].props[k] == Getter(s.clock, mod.id)
                else (HasOwn(s', o, k) <==> HasOwn(s, o, k)) &&
                     (HasOwn(s, o, k) ==> s'.objects[o].props[k] == s.objects[o].props[k]))
  {
    var keys := StarKeys(s, mod);
    var middle := BindOn(s.objects, target, keys, s.clock, mod.id);
    BoundOn(s.objects, target, keys, s.clock, mod.id, o, k);
    if second.Some? {
      BoundOn(middle, second.value, keys, s.clock, mod.id, o, k);
    }
  }

  lemma BoundOn(objects: seq<Object>, target: Id, keys: set<Key>, age: nat, from: Id, o: Id, k: Key)
    requires target < |objects| && o < |objects|
    ensures var objects' := BindOn(objects, target, keys, age, from);
            && |objects'| == |objects|
            && (k in objects'[o].props <==> k in objects[o].props || (o == target && k in keys))
            && (k in objects'[o].props ==>
                  objects'[o].props[k] == if k in objects[o].props then objects[o].props[k] else Getter(age, from))
  {}

  /** The state after `export *` from each of `mods`, in turn. */
  ghost function AfterStars(s: State, target: Id, mods: seq<Id>): State
    requires Valid(s) && target < |s.objects| && forall i :: 0 <= i < |mods| ==> mods[i] < |s.objects|
    ensures var s' := AfterStars(s, target, mods); Valid(s') && Extends(s, s')
    decreases |mods|
  {
    if mods == [] then s
    else
      var before := AfterStars(s, target, mods[..|mods| - 1]);
      var e := ReExport(target, Ref(mods[|mods| - 1]), None);
      StepKeeps(before, e);
      ExtendsTwice(s, before, Step(before, e));
      Step(before, e)
  }

  /** What `export *` brought is read live, whatever happens later. */
  lemma ReExportIsLive(s: State, target: Id, mod: Value, second: Option<Id>, events: seq<Event>, k: Key)
    requires Valid(s) && Possible(s, ReExport(target, mod, second)) && mod.Ref?
    requires Valid(ReExported(s, target, mod, second)) && IsRun(ReExported(s, target, mod, second), events)
    requires !HasOwn(s, target, k) && HasOwn(s, mod.id, k) && !k.Default?
    ensures var now := Run(ReExported(s, target, mod, second), events);
            && Valid(now) && target < |now.objects| && mod.id < |now.objects|
            && HasOwn(now, target, k) && Read(now, target, k) == Read(now, mod.id, k)
  {
    var first := ReExported(s, target, mod, second);
    ReExportKeeps(s, target, mod, second);
    ReExportAdds(s, target, mod, second, k);
    RunKeeps(first, events);
    assert ObjectKept(first.objects[target], Run(first, events).objects[target]);
  }

  /** The first of `mods` that has the key. */
  function Provider(s: State, mods: seq<Id>, k: Key): Option<Id>
    requires forall i :: 0 <= i < |mods| ==> mods[i] < |s.objects|
  {
    if mods == [] then None
    else
      var last := mods[|mods| - 1];
      var r := Provider(s, mods[..|mods| - 1], k);
      if r.Some? then r else if HasOwn(s, last, k) then Some(last) else None
  }

  /** No module before module `i` has the key. */
  predicate IsFirst(s: State, mods: seq<Id>, k: Key, i: nat)
    requires i <= |mods| && forall i :: 0 <= i < |mods| ==> mods[i] < |s.objects|
  {
    forall j :: 0 <= j < i ==> !HasOwn(s, mods[j], k)
  }

  lemma {:induction false} ProviderIsFirst(s: State, mods: seq<Id>, k: Key) returns (i: nat)
    requires forall i :: 0 <= i < |mods| ==> mods[i] < |s.objects|
    ensures i <= |mods| && IsFirst(s, mods, k, i)
    ensures Provider(s, mods, k) == if i == |mods| then None else Some(mods[i])
    ensures i < |mods| ==> HasOwn(s, mods[i], k)
    decreases |mods|
  {
    i := 0;
    if mods != [] {
      var init := mods[..|mods| - 1];
      i := ProviderIsFirst(s, init, k);
      assert forall j :: 0 <= j < |init| ==> init[j] == mods[j];
      if i == |init| && !HasOwn(s, mods[i], k) {
        i := |mods|;
      }
    }
  }

  /** The target has its own key, or reads that of the provider. */
  predicate ReadsFrom(s: State, s': State, target: Id, k: Key, provider: Option<Id>)
    requires target < |s.objects| && target < |s'.objects|
  {
    if HasOwn(s, target, k) then HasOwn(s', target, k) && s'.objects[target].props[k] == s.objects[target].props[k]
    else if !k.Default? && provider.Some? then
      HasOwn(s', target, k) && s'.objects[target].props[k].Getter? && s'.objects[target].props[k].from == provider.value
    else !HasOwn(s', target, k)
  }

  lemma StarLeavesOthers(s: State, target: Id, mods: seq<Id>, m: Id)
    requires Valid(s) && target < |s.objects| && forall i :: 0 <= i < |mods| ==> mods[i] < |s.objects|
    requires m < |s.objects| && m != target
    ensures |AfterStars(s, target, mods).objects| == |s.objects| && AfterStars(s, target, mods).objects[m] == s.objects[m]
    decreases |mods|
  {
    if mods != [] {
      StarLeavesOthers(s, target, mods[..|mods| - 1], m);
    }
  }

  /** One more `export *`. */
  lemma ProvidesNext(s: State, before: State, target: Id, mod: Id, k: Key, provider: Option<Id>)
    requires Valid(before) && target < |s.objects| <= |before.objects| && mod < |s.objects|
    requires mod != target ==> before.objects[mod] == s.objects[mod]
    requires ReadsFrom(s, before, target, k, provider)
    ensures var next := if provider.Some? then provider else if HasOwn(s, mod, k) then Some(mod) else None;
            var s' := Step(before, ReExport(target, Ref(mod), None));
            target < |s'.objects| && ReadsFrom(s, s', target, k, next)
  {
    ReExportAdds(before, target, Ref(mod), None, k);
  }

  /** Of several `export *`, the first module that has a key provides it. No later one replaces it, and
      "default" is never copied. */
  lemma {:induction false} FirstProviderWins(s: State, target: Id, mods: seq<Id>, k: Key)
    requires Valid(s) && target < |s.objects| && forall i :: 0 <= i < |mods| ==> mods[i] < |s.objects|
    ensures target < |AfterStars(s, target, mods).objects|
    ensures ReadsFrom(s, AfterStars(s, target, mods), target, k, Provider(s, mods, k))
    decreases |mods|
  {
    if mods != [] {
      var init, mod := mods[..|mods| - 1], mods[|mods| - 1];
      FirstProviderWins(s, target, init, k);
      if mod != target {
        StarLeavesOthers(s, target, init, mod);
      }
      ProvidesNext(s, AfterStars(s, target, init), target, mod, k, Provider(s, init, k));
    }
  }

  // ---------- the functions of the runtime ----------

  /** `props` is what binding `done` makes of `first`. */
  predicate Bound(props: map<Key, Prop>, first: map<Key, Prop>, done: set<Key>, age: nat, from: Id) {
    && props.Keys == first.Keys + done
    && forall k :: k in props ==> props[k] == if k in first then first[k] else Getter(age, from)
  }

  lemma BoundIsBind(props: map<Key, Prop>, first: map<Key, Prop>, keys: set<Key>, age: nat, from: Id)
    ensures Bound(props, first, keys, age, from) <==> props == Bind(first, keys, age, from)
  {
    assert Bind(first, keys, age, from).Keys == first.Keys + keys;
  }

  /** The loop over the names of a module, in any order. */
  method BindEach(first: map<Key, Prop>, keys: set<Key>, age: nat, from: Id) returns (props: map<Key, Prop>)
    ensures props == Bind(first, keys, age, from)
  {
    props := first;
    var left := keys;
    while left != {}
      invariant left <= keys && Bound(props, first, keys - left, age, from)
      decreases |left|
    {
      var key :| key in left;
      if key !in props {
        props := props[key := Getter(age, from)];
      }
      left := left - {key};
    }
    assert keys - left == keys;
    BoundIsBind(props, first, keys, age, from);
  }

  function StartOf(s: State, mod: Value, isNodeMode: bool): Object
    requires Valid(s) && Exists(s, mod)
  {
    Object(Plain, if mod.Ref? then s.objects[mod.id].inherits else map[],
           if DefaultIsModule(s, mod, isNodeMode) then map[Default := Fixed(s.clock, mod)] else map[])
  }

  lemma NamespaceFromStart(s: State, mod: Value, isNodeMode: bool, objects: seq<Object>)
    requires Valid(s) && Exists(s, mod)
    requires var start := s.objects + [StartOf(s, mod, isNodeMode)];
             objects == if HasNames(s, mod) then BindOn(start, |s.objects|, NamesOf(s, mod), s.clock, mod.id) else start
    ensures objects == s.objects + [NamespaceOf(s, mod, isNodeMode)]
  {}

  class Runtime {
    var objects: seq<Object>
    var cacheNode: map<Id, Id>
    var cacheEsm: map<Id, Id>
    /** Only the proof looks at it. */
    var clock: nat

    constructor ()
      ensures Now() == State([], map[], map[], 0) && Valid(Now())
    {
      objects, cacheNode, cacheEsm, clock := [], map[], map[], 0;
    }

    function Now(): State
      reads this
    {
      State(objects, cacheNode, cacheEsm, clock)
    }

    method DefineGetters(id: Id, keys: set<Key>, from: Id)
      requires id < |objects|
      modifies this`objects
      ensures objects == BindOn(old(objects), id, keys, clock, from)
    {
      var props := BindEach(objects[id].props, keys, clock, from);
      objects := objects[id := objects[id].(props := props)];
    }

    method ReExport(target: Id, mod: Value, secondTarget: Option<Id>)
      requires Valid(Now()) && Possible(Now(), Event.ReExport(target, mod, secondTarget))
      modifies this
      ensures Now() == Step(old(Now()), Event.ReExport(target, mod, secondTarget)) && Valid(Now())
    {
      StepKeeps(Now(), Event.ReExport(target, mod, secondTarget));
      if mod.Ref? {
        var keys := objects[mod.id].props.Keys - {Default};
        DefineGetters(target, keys, mod.id);
        if secondTarget.Some? {
          DefineGetters(secondTarget.value, keys, mod.id);
        }
      }
      clock := clock + 1;
    }

    /** The object that a new namespace starts as: "default" or nothing. */
    method NewNamespace(mod: Value, isNodeMode: bool) returns (o: Object)
      requires Valid(Now()) && Exists(Now(), mod)
      ensures o == StartOf(Now(), mod, isNodeMode)
    {
      var props: map<Key, Prop> := map[];
      if isNodeMode || !mod.Ref? || !Truthy(Read(Now(), mod.id, EsModule)) || Default !in objects[mod.id].props {
        props := props[Default := Fixed(clock, mod)];
      }
      o := Object(Plain, if mod.Ref? then objects[mod.id].inherits else map[], props);
    }

    /** A conversion that finds nothing in its cache. */
    method Convert(mod: Value, isNodeMode: bool) returns (to: Id)
      requires Valid(Now()) && Exists(Now(), mod) && !IsCached(Now(), mod, isNodeMode)
      modifies this
      ensures Now() == Converted(old(Now()), mod, isNodeMode) && to == |old(objects)|
    {
      to := |objects|;
      ghost var before := Now();
      var start := NewNamespace(mod, isNodeMode);
      objects := objects + [start];
      if mod.Ref? && !objects[mod.id].kind.ByteView? {
        DefineGetters(to, objects[mod.id].props.Keys, mod.id);
      }
      NamespaceFromStart(before, mod, isNodeMode, objects);
      clock := clock + 1;
      if mod.Ref? && !objects[mod.id].kind.Function? {
        if isNodeMode {
          cacheNode := cacheNode[mod.id := to];
        } else {
          cacheEsm := cacheEsm[mod.id := to];
        }
      }
    }

    method ToESM(mod: Value, isNodeMode: bool) returns (to: Id)
      requires Valid(Now()) && Exists(Now(), mod)
      modifies this
      ensures Now() == Step(old(Now()), Event.ToESM(mod, isNodeMode)) && Valid(Now())
      ensures to == Returned(old(Now()), mod, isNodeMode)
    {
      ConvertKeeps(Now(), mod, isNodeMode);
      var canCache := mod.Ref? && !objects[mod.id].kind.Function?;
      if canCache {
        var cache := if isNodeMode then cacheNode else cacheEsm;
        if mod.id in cache {
          return cache[mod.id];
        }
      }
      to := Convert(mod, isNodeMode);
    }
  }
}
