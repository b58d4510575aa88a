/** What can still be done to an event value after freezing: the mutating methods that each class of
    container offers, and the values that no sequence of such calls can change. */
module FrozenValues {
  import opened Foundations
  import opened EventValues

  /** A call of a mutating method of `list` or `dict`. */
  datatype Mutator =
    | SetItem(index: int, item: Value)
    | SetSlice(start: nat, stop: nat, items: seq<Value>)
    | DelItem(index: int)
    | InPlaceAdd(items: seq<Value>)
    | InPlaceRepeat(times: int)
    | Append(item: Value)
    | Extend(items: seq<Value>)
    | Insert(index: int, item: Value)
    | PopAt(index: int)
    | Remove(position: nat)
    | Reverse
    | Sort(arrangement: seq<Member>)
    | Clear
    | SetKey(key: MemberKey, item: Value)
    | DelKey(key: MemberKey)
    | InPlaceOr(entries: seq<Member>)
    | PopKey(key: MemberKey)
    | PopItem
    | SetDefault(key: MemberKey, item: Value)
    | Update(entries: seq<Member>)

  predicate ListMethod(m: Mutator) {
    m.SetItem? || m.SetSlice? || m.DelItem? || m.InPlaceAdd? || m.InPlaceRepeat? || m.Append? || m.Extend? || m.Insert?
    || m.PopAt? || m.Remove? || m.Reverse? || m.Sort? || m.Clear?
  }

  predicate DictMethod(m: Mutator) {
    m.SetKey? || m.DelKey? || m.InPlaceOr? || m.Clear? || m.PopKey? || m.PopItem? || m.SetDefault? || m.Update?
  }

  /** The methods that `_FrozenList` overrides to raise: all of a list's but `clear`. */
  predicate ListOverrides(m: Mutator) {
    m.SetItem? || m.SetSlice? || m.DelItem? || m.InPlaceAdd? || m.InPlaceRepeat?
    || m.Append? || m.Extend? || m.Insert? || m.PopAt? || m.Remove? || m.Reverse? || m.Sort?
  }

  /** The methods that `_FrozenDict` overrides to raise: all of a dictionary's. */
  predicate DictOverrides(m: Mutator) {
    m.SetKey? || m.DelKey? || m.InPlaceOr? || m.Clear? || m.PopKey? || m.PopItem? || m.SetDefault? || m.Update?
  }

  predicate Offers(shape: Shape, m: Mutator) {
    match shape
    case List(frozen) => ListMethod(m) && !(frozen && ListOverrides(m))
    case Dict(frozen) => DictMethod(m) && !(frozen && DictOverrides(m))
    case _ => false
  }

  // ----- the effect of one call on the members; none when it raises -----

  function Items(values: seq<Value>): seq<Member> {
    seq(|values|, i requires 0 <= i < |values| => Member(Position, values[i]))
  }

  /** A negative index counts from the end. */
  function At(index: int, n: nat): int {
    if index < 0 then index + n else index
  }

  function Clamped(index: int, n: nat): (at: nat)
    ensures at <= n
  {
    if At(index, n) < 0 then 0 else if n < At(index, n) then n else At(index, n)
  }

  function Without(members: seq<Member>, i: nat): seq<Member>
    requires i < |members|
  {
    members[..i] + members[i + 1..]
  }

  function Repeated(members: seq<Member>, times: int): seq<Member> {
    if times <= 0 then [] else Repeated(members, times - 1) + members
  }

  function Reversed(members: seq<Member>): seq<Member> {
    if members == [] then [] else Reversed(members[1..]) + [members[0]]
  }

  function OnList(members: seq<Member>, m: Mutator): Option<seq<Member>>
    requires ListMethod(m)
  {
    var n := |members|;
    match m
    case SetItem(index, item) =>
      if 0 <= At(index, n) < n then Some(members[At(index, n) := Member(Position, item)]) else None
    case SetSlice(start, stop, items) =>
      var lo := Clamped(start, n);
      var hi := if Clamped(stop, n) < lo then lo else Clamped(stop, n);
      Some(members[..lo] + Items(items) + members[hi..])
    case DelItem(index) => if 0 <= At(index, n) < n then Some(Without(members, At(index, n))) else None
    case InPlaceAdd(items) => Some(members + Items(items))
    case InPlaceRepeat(times) => Some(Repeated(members, times))
    case Append(item) => Some(members + [Member(Position, item)])
    case Extend(items) => Some(members + Items(items))
    case Insert(index, item) =>
      Some(members[..Clamped(index, n)] + [Member(Position, item)] + members[Clamped(index, n)..])
    case PopAt(index) => if 0 <= At(index, n) < n then Some(Without(members, At(index, n))) else None
    case Remove(position) => if position < n then Some(Without(members, position)) else None
    case Reverse => Some(Reversed(members))
    case Sort(arrangement) => if multiset(arrangement) == multiset(members) then Some(arrangement) else None
    case Clear => Some([])
  }

  /** Where a dictionary holds a key, or its size. */
  function Find(members: seq<Member>, key: MemberKey): (i: nat)
    ensures i <= |members| && (i < |members| ==> members[i].key == key)
    ensures forall j | 0 <= j < i :: members[j].key != key
  {
    if members == [] then 0
    else if members[0].key == key then 0
    else 1 + Find(members[1..], key)
  }

  function Assigned(members: seq<Member>, key: MemberKey, item: Value): seq<Member> {
    var i := Find(members, key);
    if i < |members| then members[i := Member(key, item)] else members + [Member(key, item)]
  }

  function Merged(members: seq<Member>, entries: seq<Member>): seq<Member>
    decreases |entries|
  {
    if entries == [] then members else Merged(Assigned(members, entries[0].key, entries[0].value), entries[1..])
  }

  function OnDict(members: seq<Member>, m: Mutator): Option<seq<Member>>
    requires DictMethod(m)
  {
    match m
    case SetKey(key, item) => Some(Assigned(members, key, item))
    case DelKey(key) =>
      if Find(members, key) < |members| then Some(Without(members, Find(members, key))) else None
    case InPlaceOr(entries) => Some(Merged(members, entries))
    case Clear => Some([])
    case PopKey(key) =>
      if Find(members, key) < |members| then Some(Without(members, Find(members, key))) else None
    case PopItem => if members != [] then Some(members[..|members| - 1]) else None
    case SetDefault(key, item) =>
      if Find(members, key) < |members| then Some(members) else Some(Assigned(members, key, item))
    case Update(entries) => Some(Merged(members, entries))
  }

  function OnMembers(shape: Shape, members: seq<Member>, m: Mutator): seq<Member>
    requires Offers(shape, m)
  {
    var after := if shape.List? then OnList(members, m) else OnDict(members, m);
    if after.Some? then after.value else members
  }

  // ----- calls inside a value -----

  /** The value after the container at `path` was asked to perform `m`: unchanged when there is none, or it
      does not offer the method, or the call raises.  Members are read through containers of every class. */
  function Mutate(v: Value, path: seq<nat>, m: Mutator): Value
    decreases |path|
  {
    if !v.Container? then v
    else if path == [] then
      if Offers(v.shape, m) then Container(v.shape, OnMembers(v.shape, v.members, m)) else v
    else if path[0] < |v.members| then
      var inner := v.members[path[0]];
      Container(v.shape, v.members[path[0] := Member(inner.key, Mutate(inner.value, path[1..], m))])
    else v
  }

  datatype Call = Call(path: seq<nat>, mutator: Mutator)

  function RunCalls(v: Value, calls: seq<Call>): Value {
    if calls == [] then v
    else
      var n := |calls| - 1;
      Mutate(RunCalls(v, calls[..n]), calls[n].path, calls[n].mutator)
  }

  /** Nothing in it can be changed: no plain list or dictionary, and no member in a frozen list. */
  ghost predicate Settled(v: Value) {
    v.Container? ==>
      && !Mutable(v.shape) && (v.shape.List? ==> v.members == [])
      && forall i | 0 <= i < |v.members| :: Settled(v.members[i].value)
  }

  /** Freezing is enough: every list it reaches is empty, and nothing below a tuple or a mapping that is no
      dictionary could be changed in the first place. */
  ghost predicate SettlesByFreezing(v: Value) {
    v.Container? ==>
      && (v.shape.List? ==> v.members == [])
      && forall i | 0 <= i < |v.members| ::
           if v.shape.Dict? then SettlesByFreezing(v.members[i].value) else Settled(v.members[i].value)
  }

  lemma {:induction false} FreezeSettles(v: Value)
    ensures Settled(Freeze(v)) <==> SettlesByFreezing(v)
  {
    if v.Container? && v.shape.Dict? {
      forall i | 0 <= i < |v.members|
        ensures Settled(Freeze(v).members[i].value) <==> SettlesByFreezing(v.members[i].value)
      {
        FreezeSettles(v.members[i].value);
      }
    }
  }

  lemma {:induction false} SettledStays(v: Value, path: seq<nat>, m: Mutator)
    requires Settled(v)
    ensures Mutate(v, path, m) == v
    decreases |path|
  {
    if v.Container? && path != [] && path[0] < |v.members| {
      SettledStays(v.members[path[0]].value, path[1..], m);
    }
  }

  lemma {:induction false} SettledKeeps(v: Value, calls: seq<Call>)
    requires Settled(v)
    ensures RunCalls(v, calls) == v
    decreases |calls|
  {
    if calls != [] {
      SettledKeeps(v, calls[..|calls| - 1]);
      SettledStays(v, calls[|calls| - 1].path, calls[|calls| - 1].mutator);
    }
  }

  lemma ThawSplits(v: Value, w: Value, i: nat)
    requires v.Container? && w.Container? && v.shape == w.shape && i < |v.members| == |w.members|
    requires Thaw(w.members[i].value) != Thaw(v.members[i].value)
    ensures Thaw(w) != Thaw(v)
  {
    assert Thaw(v).members[i] == ThawMember(v.members[i]) && Thaw(w).members[i] == ThawMember(w.members[i]);
  }

  lemma ThawCounts(v: Value, w: Value)
    requires v.Container? && w.Container? && |v.members| != |w.members|
    ensures Thaw(w) != Thaw(v)
  {
    assert |Thaw(v).members| == |v.members| && |Thaw(w).members| == |w.members|;
  }

  /** A value that is not settled has a container on which one call changes what the value says. */
  lemma {:induction false} UnsettledChanges(v: Value) returns (path: seq<nat>, m: Mutator)
    requires !Settled(v)
    ensures Thaw(Mutate(v, path, m)) != Thaw(v)
    decreases v
  {
    if v.shape == List(true) && v.members != [] {
      path, m := [], Clear;
      ThawCounts(v, Mutate(v, path, m));
    } else if Mutable(v.shape) {
      path, m := [], ChangeOf(v);
      ThawCounts(v, Mutate(v, path, m));
    } else {
      var i :| 0 <= i < |v.members| && !Settled(v.members[i].value);
      var inner, deeper := UnsettledChanges(v.members[i].value);
      path, m := [i] + inner, deeper;
      assert path[1..] == inner;
      ThawSplits(v, Mutate(v, path, m), i);
    }
  }

  /** A call by which a plain list or dictionary always gains or loses a member. */
  function ChangeOf(v: Value): Mutator
    requires v.Container?
  {
    if v.shape.List? then Append(Null) else if v.members == [] then SetKey(OtherKey, Null) else Clear
  }

  /** No sequence of calls changes what a frozen value says, if and only if every list that freezing reaches is
      empty and nothing changeable sits below a tuple or a mapping that is no dictionary. */
  lemma FrozenKeepsValue(v: Value)
    ensures SettlesByFreezing(v) <==> forall calls :: Thaw(RunCalls(Freeze(v), calls)) == Thaw(v)
  {
    FreezeSettles(v);
    FreezePreservesValue(v);
    if SettlesByFreezing(v) {
      forall calls ensures Thaw(RunCalls(Freeze(v), calls)) == Thaw(v) {
        SettledKeeps(Freeze(v), calls);
      }
    } else {
      var path, m := UnsettledChanges(Freeze(v));
      OneCall(Freeze(v), path, m);
    }
  }

  lemma OneCall(v: Value, path: seq<nat>, m: Mutator)
    ensures RunCalls(v, [Call(path, m)]) == Mutate(v, path, m)
  {
    assert [Call(path, m)][..0] == [];
    assert RunCalls(v, []) == v;
  }

  // ----- what freezing does guarantee -----

  /** The value `w` is `v` with some of its lists emptied, and nothing else. */
  ghost predicate Emptied(w: Value, v: Value)
    decreases v, 1
  {
    if !v.Container? then w == v
    else
      && w.Container? && w.shape == v.shape
      && ((v.shape.List? && w.members == []) || MembersEmptied(w, v))
  }

  ghost predicate MembersEmptied(w: Value, v: Value)
    requires w.Container? && v.Container?
    decreases v, 0
  {
    && |w.members| == |v.members|
    && forall i | 0 <= i < |v.members| ::
         w.members[i].key == v.members[i].key && Emptied(w.members[i].value, v.members[i].value)
  }

  lemma {:induction false} EmptiedItself(v: Value)
    ensures Emptied(v, v)
  {
    if v.Container? {
      forall i | 0 <= i < |v.members| ensures Emptied(v.members[i].value, v.members[i].value) {
        EmptiedItself(v.members[i].value);
      }
    }
  }

  lemma {:induction false} FrozenStep(u: Value, v: Value, path: seq<nat>, m: Mutator)
    requires DeeplyFrozen(u) && Emptied(u, v)
    ensures DeeplyFrozen(Mutate(u, path, m)) && Emptied(Mutate(u, path, m), v)
    decreases |path|
  {
    if u.Container? && path != [] && path[0] < |u.members| {
      FrozenStep(u.members[path[0]].value, v.members[path[0]].value, path[1..], m);
    }
  }

  lemma {:induction false} FrozenRun(v: Value, calls: seq<Call>)
    requires DeeplyFrozen(v)
    ensures DeeplyFrozen(RunCalls(v, calls)) && Emptied(RunCalls(v, calls), v)
    decreases |calls|
  {
    if calls == [] {
      EmptiedItself(v);
    } else {
      var n := |calls| - 1;
      FrozenRun(v, calls[..n]);
      FrozenStep(RunCalls(v, calls[..n]), v, calls[n].path, calls[n].mutator);
    }
  }

  /** A plain list or dictionary anywhere can be made into something that is not merely emptied. */
  lemma {:induction false} PlainContainerChanges(v: Value) returns (path: seq<nat>, m: Mutator)
    requires !DeeplyFrozen(v)
    ensures !Emptied(Mutate(v, path, m), v)
    decreases v
  {
    if Mutable(v.shape) {
      path, m := [], ChangeOf(v);
    } else {
      var i :| 0 <= i < |v.members| && !DeeplyFrozen(v.members[i].value);
      var inner, deeper := PlainContainerChanges(v.members[i].value);
      path, m := [i] + inner, deeper;
      assert path[1..] == inner;
      assert Mutate(v, path, m).members[i].value == Mutate(v.members[i].value, inner, deeper);
    }
  }

  /** Emptying lists is all that any sequence of calls can do to a frozen value, if and only if no plain list or
      dictionary sits below a tuple or a mapping that is no dictionary. */
  lemma FrozenOnlyEmpties(v: Value)
    ensures OpenToFreezing(v) <==> forall calls :: Emptied(RunCalls(Freeze(v), calls), Freeze(v))
  {
    FreezeReaches(v);
    if OpenToFreezing(v) {
      forall calls ensures Emptied(RunCalls(Freeze(v), calls), Freeze(v)) {
        FrozenRun(Freeze(v), calls);
      }
    } else {
      var path, m := PlainContainerChanges(Freeze(v));
      OneCall(Freeze(v), path, m);
    }
  }

  // ----- a concrete value -----

  const NUMBERS := Container(List(false), [Member(Position, Integer(1))])

  /** The payload `{"a": [1]}`. */
  const PAYLOAD := Container(Dict(false), [Member(Name("a"), NUMBERS)])

  /** The frozen payload after `payload["a"].clear()`. */
  const CLEARED := Container(Dict(true), [Member(Name("a"), Container(List(true), []))])

  lemma PayloadFits()
    ensures Legal(PAYLOAD) && Height(PAYLOAD) == 2 && Nodes(PAYLOAD) == 3 && Serializable(PAYLOAD) && PlainTree(PAYLOAD)
  {
    OneMember(NUMBERS.members[0]);
    OneMember(PAYLOAD.members[0]);
    assert NUMBERS.members[0].value == Integer(1) && PAYLOAD.members[0].value == NUMBERS;
  }

  lemma PayloadFreezes()
    ensures Freeze(PAYLOAD) ==
            Container(Dict(true), [Member(Name("a"), Container(List(true), [Member(Position, Integer(1))]))])
  {
    assert Freeze(NUMBERS).members == [Member(Position, Integer(1))];
    assert Freeze(PAYLOAD).members == [Member(Name("a"), Freeze(NUMBERS))];
  }

  /** It is made of dictionaries and lists only and freezes at every depth, and yet its list can be emptied. */
  lemma FrozenListIsCleared()
    ensures Legal(PAYLOAD) && Height(PAYLOAD) <= MAX_DEPTH && Serializable(PAYLOAD) && PlainTree(PAYLOAD)
    ensures DeeplyFrozen(Freeze(PAYLOAD))
    ensures RunCalls(Freeze(PAYLOAD), [Call([0], Clear)]) == CLEARED && Thaw(CLEARED) != Thaw(PAYLOAD)
  {
    hide Thaw, Legal, Serializable, Nodes, Height, Freeze, DeeplyFrozen, PlainTree, RunCalls;
    PayloadFits();
    PlainTreesFreezeFully(PAYLOAD);
    PayloadFreezes();
    OneCall(Freeze(PAYLOAD), [0], Clear);
    assert [0][1..] == [];
    FreezePreservesValue(PAYLOAD);
    var frozen := Freeze(PAYLOAD);
    ThawCounts(frozen.members[0].value, CLEARED.members[0].value);
    ThawSplits(frozen, CLEARED, 0);
  }
}
