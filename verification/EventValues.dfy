/** JSON values inside an event: the validator that threads one counter through the walk, and freezing. */
module EventValues {
  import opened Foundations

  /** Where a member of a container sits: at a position, under a string, or under a key of another type. */
  datatype MemberKey = Position | Name(text: string) | OtherKey

  datatype Member = Member(key: MemberKey, value: Value)

  /** Lists and dictionaries exist in a plain and in a frozen class; `Mapping` is one that is not a dictionary. */
  datatype Shape = List(frozen: bool) | Tuple | Dict(frozen: bool) | Mapping

  datatype Value =
    | Null
    | Text(text: string)
    | Bool(truth: bool)
    | Integer(number: int)
    | Float(finite: bool, digits: string)
    | Container(shape: Shape, members: seq<Member>)
    | Foreign(typeName: string)

  const MAX_DEPTH := 16

  predicate Keyed(shape: Shape) {
    shape.Dict? || shape.Mapping?
  }

  // ----- what the validator is for -----

  /** A JSON text (section 3 of RFC 8259), tuples standing for arrays: finite numbers and string keys. */
  ghost predicate Legal(v: Value) {
    match v
    case Float(finite, _) => finite
    case Container(shape, members) =>
      forall i | 0 <= i < |members| :: (Keyed(shape) ==> members[i].key.Name?) && Legal(members[i].value)
    case Foreign(_) => false
    case _ => true
  }

  ghost function Nodes(v: Value): nat {
    1 + if v.Container? then NodesIn(v.members) else 0
  }

  ghost function NodesIn(members: seq<Member>): nat {
    if members == [] then 0 else NodesIn(members[..|members| - 1]) + NodesOf(members[|members| - 1])
  }

  ghost function NodesOf(m: Member): nat {
    Nodes(m.value)
  }

  /** The nesting depth: how many containers enclose the deepest value. */
  ghost function Height(v: Value): nat {
    if v.Container? then HeightIn(v.members) else 0
  }

  ghost function HeightIn(members: seq<Member>): nat {
    if members == [] then 0 else Max(HeightIn(members[..|members| - 1]), HeightOf(members[|members| - 1]))
  }

  ghost function HeightOf(m: Member): nat {
    1 + Height(m.value)
  }

  /** `json.dumps` knows dictionaries, lists and tuples only. */
  ghost predicate Serializable(v: Value) {
    v.Container? ==> !v.shape.Mapping? && forall i | 0 <= i < |v.members| :: Serializable(v.members[i].value)
  }

  // ----- the same by the places in a value -----

  /** The value at a place: the member of the member, and so on. */
  ghost function At(v: Value, path: seq<nat>): Option<Value>
    decreases |path|
  {
    if path == [] then Some(v)
    else if v.Container? && path[0] < |v.members| then At(v.members[path[0]].value, path[1..])
    else None
  }

  /** No JSON: a number that is not finite, a value of another type, or a mapping with a key that is no text. */
  predicate Unlawful(v: Value) {
    || (v.Float? && !v.finite) || v.Foreign?
    || (v.Container? && (v.shape.Dict? || v.shape.Mapping?)
        && exists i :: 0 <= i < |v.members| && !v.members[i].key.Name?)
  }

  lemma Below(v: Value, i: nat, path: seq<nat>)
    requires v.Container? && i < |v.members|
    ensures At(v, [i] + path) == At(v.members[i].value, path)
  {
    assert ([i] + path)[1..] == path;
  }

  lemma {:induction false} LegalThroughout(v: Value, path: seq<nat>)
    requires Legal(v) && At(v, path).Some?
    ensures !Unlawful(At(v, path).value)
    decreases |path|
  {
    if path != [] {
      LegalThroughout(v.members[path[0]].value, path[1..]);
    }
  }

  lemma {:induction false} IllegalSomewhere(v: Value) returns (path: seq<nat>)
    requires !Legal(v)
    ensures At(v, path).Some? && Unlawful(At(v, path).value)
    decreases v
  {
    path := [];
    if !Unlawful(v) {
      var i: nat :| i < |v.members| && !Legal(v.members[i].value);
      var inner := IllegalSomewhere(v.members[i].value);
      Below(v, i, inner);
      path := [i] + inner;
    }
  }

  /** A value is legal exactly when nothing in it, at any place, is no JSON. */
  lemma LegalMeans(v: Value)
    ensures Legal(v) <==> forall path | At(v, path).Some? :: !Unlawful(At(v, path).value)
  {
    if Legal(v) {
      forall path | At(v, path).Some? ensures !Unlawful(At(v, path).value) {
        LegalThroughout(v, path);
      }
    } else {
      var path := IllegalSomewhere(v);
    }
  }

  lemma {:induction false} HeightInBound(members: seq<Member>, n: int)
    ensures HeightIn(members) <= n <==> 0 <= n && forall i | 0 <= i < |members| :: 1 + Height(members[i].value) <= n
    decreases |members|
  {
    if members != [] {
      HeightInBound(members[..|members| - 1], n);
    }
  }

  /** The nesting is at most `n` deep exactly when no place is more than `n` steps down. */
  lemma {:induction false} HeightMeans(v: Value, n: nat)
    ensures Height(v) <= n <==> forall path | At(v, path).Some? :: |path| <= n
    decreases v
  {
    assert At(v, []) == Some(v);
    if v.Container? {
      HeightInBound(v.members, n);
      if Height(v) <= n {
        forall path | At(v, path).Some? ensures |path| <= n {
          if path != [] {
            var inner := v.members[path[0]].value;
            assert 1 + Height(inner) <= n;
            HeightMeans(inner, n - 1);
            assert At(inner, path[1..]).Some? && |path[1..]| <= n - 1;
          }
        }
      }
      if forall path | At(v, path).Some? :: |path| <= n {
        forall i: nat | i < |v.members| ensures 1 + Height(v.members[i].value) <= n {
          Below(v, i, []);
          assert |[i] + []| <= n;
          forall path | At(v.members[i].value, path).Some? ensures |path| <= n - 1 {
            Below(v, i, path);
            assert |[i] + path| <= n;
          }
          HeightMeans(v.members[i].value, n - 1);
        }
      }
    } else {
      forall path | At(v, path).Some? ensures path == [] {
      }
    }
  }

  datatype Refusal = TooDeep | TooManyValues | NotFinite | KeyNotText | NotJson | NotSerializable | TooLong

  lemma {:induction false} PartOfMembers(members: seq<Member>, i: nat)
    requires i < |members|
    ensures NodesIn(members[..i]) + Nodes(members[i].value) <= NodesIn(members)
    ensures 1 + Height(members[i].value) <= HeightIn(members)
    decreases |members|
  {
    if i == |members| - 1 {
    } else {
      var init := members[..|members| - 1];
      PartOfMembers(init, i);
      assert init[..i] == members[..i];
    }
  }

  /** What a refusal says about the value. */
  ghost predicate Justified(refusal: Refusal, v: Value, depth: nat, count: nat, maxValues: int) {
    match refusal
    case TooDeep => MAX_DEPTH < depth + Height(v)
    case TooManyValues => maxValues < count + Nodes(v)
    case NotFinite => !Legal(v)
    case KeyNotText => !Legal(v)
    case NotJson => !Legal(v)
    case _ => false
  }

  lemma JustifiedInside(refusal: Refusal, shape: Shape, members: seq<Member>, i: nat, depth: nat,
                        count: nat, maxValues: int)
    requires i < |members| && Justified(refusal, members[i].value, depth + 1,
                                        count + 1 + NodesIn(members[..i]), maxValues)
    ensures Justified(refusal, Container(shape, members), depth, count, maxValues)
  {
    PartOfMembers(members, i);
  }

  ghost predicate MemberIsLegal(shape: Shape, m: Member) {
    (Keyed(shape) ==> m.key.Name?) && Legal(m.value)
  }

  lemma MembersGrow(members: seq<Member>, i: nat)
    requires i < |members|
    ensures NodesIn(members[..i + 1]) == NodesIn(members[..i]) + Nodes(members[i].value)
    ensures HeightIn(members[..i + 1]) == Max(HeightIn(members[..i]), 1 + Height(members[i].value))
  {
    assert members[..i + 1][..i] == members[..i];
  }

  /** A justified refusal is one of a value that must be refused. */
  lemma JustifiedRefuses(refusal: Refusal, v: Value, depth: nat, count: nat, maxValues: int)
    requires Justified(refusal, v, depth, count, maxValues)
    ensures !(Legal(v) && depth + Height(v) <= MAX_DEPTH && count + Nodes(v) <= maxValues)
  {
  }

  /** One validation: the counter is a cell shared by the whole walk. */
  class JsonValidation {
    const maxValues: int
    var valueCount: nat

    constructor (maxValues: int)
      ensures this.maxValues == maxValues && valueCount == 0
    {
      this.maxValues := maxValues;
      valueCount := 0;
    }

    /** Accepts exactly the legal values that fit the remaining depth and the remaining count. */
    method Validate(v: Value, depth: nat) returns (refusal: Option<Refusal>)
      modifies this
      decreases v, 1
      ensures refusal.None? <==> Legal(v) && depth + Height(v) <= 16 && old(valueCount) + Nodes(v) <= maxValues
      ensures refusal.None? ==> valueCount == old(valueCount) + Nodes(v)
      ensures refusal.Some? ==> Justified(refusal.value, v, depth, old(valueCount), maxValues)
    {
      if depth > MAX_DEPTH {
        return Some(TooDeep);
      }
      valueCount := valueCount + 1;
      if valueCount > maxValues {
        return Some(TooManyValues);
      }
      match v {
        case Null => return None;
        case Text(_) => return None;
        case Bool(_) => return None;
        case Integer(_) => return None;
        case Float(finite, _) => return if finite then None else Some(NotFinite);
        case Foreign(_) => return Some(NotJson);
        case Container(_, _) =>
          refusal := ValidateMembers(v, depth);
      }
    }

    /** The loop over a container that has been counted itself. */
    method ValidateMembers(v: Value, depth: nat) returns (refusal: Option<Refusal>)
      requires v.Container? && depth <= MAX_DEPTH && 1 <= valueCount <= maxValues
      modifies this
      decreases v, 0
      ensures refusal.None? <==>
              Legal(v) && depth + Height(v) <= 16 && old(valueCount) - 1 + Nodes(v) <= maxValues
      ensures refusal.None? ==> valueCount == old(valueCount) - 1 + Nodes(v)
      ensures refusal.Some? ==> Justified(refusal.value, v, depth, old(valueCount) - 1, maxValues)
    {
      var members := v.members;
      for i := 0 to |members|
        invariant valueCount == old(valueCount) + NodesIn(members[..i]) <= maxValues
        invariant depth + HeightIn(members[..i]) <= MAX_DEPTH
        invariant forall j | 0 <= j < i :: MemberIsLegal(v.shape, members[j])
      {
        if Keyed(v.shape) && !members[i].key.Name? {
          return Some(KeyNotText);
        }
        var inner := Validate(members[i].value, depth + 1);
        if inner.Some? {
          JustifiedInside(inner.value, v.shape, members, i, depth, old(valueCount) - 1, maxValues);
          JustifiedRefuses(inner.value, v, depth, old(valueCount) - 1, maxValues);
          return inner;
        }
        MembersGrow(members, i);
      }
      assert members[..|members|] == members;
      refusal := None;
    }
  }

  /** `_validate_json_container`, for an encoder of which only the encoded length matters. */
  method ValidateContainer(v: Value, maxBytes: int, maxValues: int, encodedLength: Value -> nat)
    returns (refusal: Option<Refusal>)
    ensures refusal.None? <==>
            Legal(v) && Height(v) <= 16 && Nodes(v) <= maxValues && Serializable(v)
              && encodedLength(v) <= maxBytes
    ensures refusal == Some(NotSerializable) ==> Legal(v) && !Serializable(v)
  {
    var validation := new JsonValidation(maxValues);
    refusal := validation.Validate(v, 0);
    if refusal.Some? {
      return;
    }
    var known := CanSerialize(v);
    if !known {
      return Some(NotSerializable);
    }
    refusal := if encodedLength(v) > maxBytes then Some(TooLong) else None;
  }

  method CanSerialize(v: Value) returns (known: bool)
    ensures known == Serializable(v)
    decreases v
  {
    if !v.Container? {
      return true;
    }
    if v.shape.Mapping? {
      return false;
    }
    for i := 0 to |v.members|
      invariant forall j | 0 <= j < i :: Serializable(v.members[j].value)
    {
      var inner := CanSerialize(v.members[i].value);
      if !inner {
        return false;
      }
    }
    known := true;
  }

  // ----- freezing -----

  /** `_freeze`: dictionaries and lists are rebuilt as frozen ones; anything else is returned as it is. */
  function Freeze(v: Value): Value {
    if v.Container? && v.shape.Dict? then Container(Dict(true), FreezeAll(v.members))
    else if v.Container? && v.shape.List? then Container(List(true), FreezeAll(v.members))
    else v
  }

  function FreezeAll(members: seq<Member>): (frozen: seq<Member>)
    ensures |frozen| == |members|
    ensures forall i | 0 <= i < |members| :: frozen[i] == FreezeMember(members[i])
  {
    if members == [] then []
    else
      var n := |members| - 1;
      FreezeAll(members[..n]) + [FreezeMember(members[n])]
  }

  function FreezeMember(m: Member): Member {
    Member(m.key, Freeze(m.value))
  }

  /** The same value with every container of its plain class: what the value says, whoever may change it. */
  ghost function Thaw(v: Value): Value {
    match v
    case Container(Dict(_), members) => Container(Dict(false), ThawAll(members))
    case Container(List(_), members) => Container(List(false), ThawAll(members))
    case Container(shape, members) => Container(shape, ThawAll(members))
    case _ => v
  }

  ghost function ThawAll(members: seq<Member>): (thawed: seq<Member>)
    ensures |thawed| == |members|
    ensures forall i | 0 <= i < |members| :: thawed[i] == ThawMember(members[i])
  {
    if members == [] then []
    else
      var n := |members| - 1;
      ThawAll(members[..n]) + [ThawMember(members[n])]
  }

  ghost function ThawMember(m: Member): Member {
    Member(m.key, Thaw(m.value))
  }

  /** The plain classes, which offer every mutating method. */
  predicate Mutable(shape: Shape) {
    shape == List(false) || shape == Dict(false)
  }

  /** Every list and dictionary in it has the frozen class, at any depth. */
  ghost predicate DeeplyFrozen(v: Value) {
    v.Container? ==> !Mutable(v.shape) && forall i | 0 <= i < |v.members| :: DeeplyFrozen(v.members[i].value)
  }

  /** No plain list or dictionary sits below a tuple or below a mapping that is no dictionary. */
  ghost predicate OpenToFreezing(v: Value) {
    v.Container? ==>
      forall i | 0 <= i < |v.members| ::
        if v.shape.Dict? || v.shape.List? then OpenToFreezing(v.members[i].value) else DeeplyFrozen(v.members[i].value)
  }

  /** Made of dictionaries, lists and scalars only. */
  ghost predicate PlainTree(v: Value) {
    v.Container? ==>
      (v.shape.Dict? || v.shape.List?) && forall i | 0 <= i < |v.members| :: PlainTree(v.members[i].value)
  }

  /** Freezing changes nothing of what the value says. */
  lemma {:induction false} FreezePreservesValue(v: Value)
    ensures Thaw(Freeze(v)) == Thaw(v)
  {
    hide ThawAll, FreezeAll, ThawMember, FreezeMember;
    if v.Container? && (v.shape.Dict? || v.shape.List?) {
      var frozen := FreezeAll(v.members);
      forall i | 0 <= i < |v.members| ensures ThawAll(frozen)[i] == ThawAll(v.members)[i] {
        FreezePreservesMember(v.members[i]);
      }
      assert ThawAll(frozen) == ThawAll(v.members);
    }
  }

  lemma {:induction false} FreezePreservesMember(m: Member)
    ensures ThawMember(FreezeMember(m)) == ThawMember(m)
  {
    FreezePreservesValue(m.value);
  }

  ghost predicate SameMeasures(v: Value, w: Value) {
    (Legal(v) <==> Legal(w)) && Nodes(v) == Nodes(w) && Height(v) == Height(w)
  }

  lemma {:induction false} ThawKeepsMeasures(v: Value)
    ensures SameMeasures(Thaw(v), v)
  {
    if v.Container? {
      ThawKeepsMeasuresIn(v.members);
      ThawIs(v);
      hide Thaw, ThawAll, NodesIn, HeightIn;
      SameMembersLegal(v, Thaw(v));
    }
  }

  lemma ThawIs(v: Value)
    requires v.Container?
    ensures Thaw(v).Container? && Keyed(Thaw(v).shape) == Keyed(v.shape) && Thaw(v).members == ThawAll(v.members)
  {
  }

  lemma SameMembersLegal(v: Value, w: Value)
    requires v.Container? && w.Container? && Keyed(v.shape) == Keyed(w.shape) && |v.members| == |w.members|
    requires forall i | 0 <= i < |v.members| ::
               w.members[i].key == v.members[i].key && (Legal(w.members[i].value) <==> Legal(v.members[i].value))
    ensures Legal(w) <==> Legal(v)
  {
  }

  lemma {:induction false} ThawKeepsMember(m: Member)
    ensures SameMeasures(ThawMember(m).value, m.value)
  {
    ThawKeepsMeasures(m.value);
  }

  lemma {:induction false} ThawKeepsMeasuresIn(members: seq<Member>)
    ensures forall i | 0 <= i < |members| :: SameMeasures(ThawMember(members[i]).value, members[i].value)
    ensures NodesIn(ThawAll(members)) == NodesIn(members) && HeightIn(ThawAll(members)) == HeightIn(members)
  {
    if members != [] {
      var n := |members| - 1;
      ThawKeepsMeasuresIn(members[..n]);
      ThawKeepsMember(members[n]);
      assert ThawAll(members)[..n] == ThawAll(members[..n]);
      forall i | 0 <= i < |members| ensures SameMeasures(ThawMember(members[i]).value, members[i].value) {
        if i < n { assert members[..n][i] == members[i]; }
      }
    }
  }

  /** A frozen value is accepted by the validator exactly when the original is. */
  lemma FreezeKeepsVerdict(v: Value)
    ensures Legal(Freeze(v)) <==> Legal(v)
    ensures Nodes(Freeze(v)) == Nodes(v) && Height(Freeze(v)) == Height(v)
  {
    FreezePreservesValue(v);
    ThawKeepsMeasures(v);
    ThawKeepsMeasures(Freeze(v));
  }

  /** Freezing gives every list and dictionary the frozen class exactly when no plain one hides below a tuple
      or a foreign mapping. */
  lemma {:induction false} FreezeReaches(v: Value)
    ensures DeeplyFrozen(Freeze(v)) <==> OpenToFreezing(v)
  {
    if v.Container? && (v.shape.Dict? || v.shape.List?) {
      forall i | 0 <= i < |v.members|
        ensures DeeplyFrozen(Freeze(v).members[i].value) <==> OpenToFreezing(v.members[i].value)
      {
        FreezeReaches(v.members[i].value);
      }
    }
  }

  lemma {:induction false} PlainTreesFreezeFully(v: Value)
    requires PlainTree(v)
    ensures DeeplyFrozen(Freeze(v))
  {
    if v.Container? {
      forall i | 0 <= i < |v.members| ensures DeeplyFrozen(Freeze(v).members[i].value) {
        PlainTreesFreezeFully(v.members[i].value);
      }
    }
  }

  lemma OneMember(m: Member)
    ensures NodesIn([m]) == NodesOf(m) && HeightIn([m]) == HeightOf(m)
  {
    assert [m][..0] == [];
    assert NodesIn([]) == 0 && HeightIn([]) == 0;
  }

  /** A list inside a tuple is accepted by the validator and keeps its plain class after freezing. */
  lemma TupleHidesList(maxValues: int)
    requires 3 <= maxValues
    ensures var inner := Container(List(false), []);
            var v := Container(Dict(false), [Member(Name("a"), Container(Tuple, [Member(Position, inner)]))]);
            && Legal(v) && Height(v) <= MAX_DEPTH && Nodes(v) <= maxValues && Serializable(v)
            && !DeeplyFrozen(Freeze(v))
  {
    var inner := Container(List(false), []);
    var middle := Container(Tuple, [Member(Position, inner)]);
    var v := Container(Dict(false), [Member(Name("a"), middle)]);
    FreezeReaches(v);
    assert !DeeplyFrozen(inner) && middle.members[0].value == inner && v.members[0].value == middle;
    OneMember(middle.members[0]);
    OneMember(v.members[0]);
  }

  lemma {:induction false} FreezeTwice(v: Value)
    ensures Freeze(Freeze(v)) == Freeze(v)
  {
    if v.Container? && (v.shape.Dict? || v.shape.List?) {
      var once := FreezeAll(v.members);
      forall i | 0 <= i < |v.members| ensures FreezeAll(once)[i] == once[i] {
        FreezeTwice(v.members[i].value);
      }
      assert FreezeAll(once) == once;
    }
  }
}
