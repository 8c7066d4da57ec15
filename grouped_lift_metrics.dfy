/**
 * Grouped lift metrics: one summary record together with an ordered vector of
 * per-subgroup records, where position i always denotes the same subgroup.
 * Two grouped values are compared structurally, combined position by position
 * with the record's `+` (adding partial results) or `^` (reconstructing secret
 * shares), and converted to and from a JSON object with the two members
 * "metrics" and "subGroupMetrics".
 *
 * Values are immutable: every operation builds a new value and leaves its
 * operands as they were.
 */
module GroupedLift {
  import opened Wrappers
  import opened Dynamic
  import opened LiftMetrics
  import opened VectorUtil

  datatype GroupedLiftMetrics<M> = GroupedLiftMetrics(metrics: M, subGroupMetrics: seq<M>)

  const MetricsKey: string := "metrics"
  const SubGroupMetricsKey: string := "subGroupMetrics"

  /** Why a structured value could not be read as grouped metrics. */
  datatype DecodeError =
    | NotAnObject
    | MissingMember(name: string)
    | NotAnArray(name: string)
    | InvalidSubGroup(index: nat)
    | InvalidMetrics

  // ---------------------------------------------------------------------------
  // Equality
  // ---------------------------------------------------------------------------

  /** Equal summaries, and subgroup vectors of the same length that agree
      position by position. */
  function Equal<M(==)>(a: GroupedLiftMetrics<M>, b: GroupedLiftMetrics<M>): (r: bool)
    ensures r <==> a.metrics == b.metrics && |a.subGroupMetrics| == |b.subGroupMetrics|
                   && forall i :: 0 <= i < |a.subGroupMetrics| ==> a.subGroupMetrics[i] == b.subGroupMetrics[i]
    ensures r <==> a == b
  {
    a.metrics == b.metrics && a.subGroupMetrics == b.subGroupMetrics
  }

  lemma EqualReflexive<M>(a: GroupedLiftMetrics<M>)
    ensures Equal(a, a)
  {}

  lemma EqualSymmetric<M>(a: GroupedLiftMetrics<M>, b: GroupedLiftMetrics<M>)
    ensures Equal(a, b) == Equal(b, a)
  {}

  lemma EqualTransitive<M>(a: GroupedLiftMetrics<M>, b: GroupedLiftMetrics<M>, c: GroupedLiftMetrics<M>)
    requires Equal(a, b) && Equal(b, c)
    ensures Equal(a, c)
  {}

  /** Subgroups are matched by position: exchanging two different subgroup
      records gives a value that is not equal to the original. */
  lemma EqualIsOrderSensitive<M>(a: GroupedLiftMetrics<M>, i: nat, j: nat)
    requires i < j < |a.subGroupMetrics|
    requires a.subGroupMetrics[i] != a.subGroupMetrics[j]
    ensures !Equal(a, a.(subGroupMetrics := a.subGroupMetrics[i := a.subGroupMetrics[j]][j := a.subGroupMetrics[i]]))
  {}

  // ---------------------------------------------------------------------------
  // Combination
  // ---------------------------------------------------------------------------

  /** `a + b`: the summaries are added, and so is each pair of subgroups at the
      same position. */
  function Plus<M>(caps: Capabilities<M>, a: GroupedLiftMetrics<M>, b: GroupedLiftMetrics<M>): (r: GroupedLiftMetrics<M>)
    requires |a.subGroupMetrics| == |b.subGroupMetrics|
    ensures r.metrics == caps.add(a.metrics, b.metrics)
    ensures |r.subGroupMetrics| == |a.subGroupMetrics|
    ensures forall i :: 0 <= i < |r.subGroupMetrics| ==>
              r.subGroupMetrics[i] == caps.add(a.subGroupMetrics[i], b.subGroupMetrics[i])
  {
    GroupedLiftMetrics(caps.add(a.metrics, b.metrics), Pointwise(caps.add, a.subGroupMetrics, b.subGroupMetrics))
  }

  /** `a ^ b`: the summaries are combined with the record's `^`, and so is each
      pair of subgroups at the same position. */
  function Xor<M>(caps: Capabilities<M>, a: GroupedLiftMetrics<M>, b: GroupedLiftMetrics<M>): (r: GroupedLiftMetrics<M>)
    requires |a.subGroupMetrics| == |b.subGroupMetrics|
    ensures r.metrics == caps.xor(a.metrics, b.metrics)
    ensures |r.subGroupMetrics| == |a.subGroupMetrics|
    ensures forall i :: 0 <= i < |r.subGroupMetrics| ==>
              r.subGroupMetrics[i] == caps.xor(a.subGroupMetrics[i], b.subGroupMetrics[i])
  {
    GroupedLiftMetrics(caps.xor(a.metrics, b.metrics), Pointwise(caps.xor, a.subGroupMetrics, b.subGroupMetrics))
  }

  lemma PlusCommutative<M(!new)>(caps: Capabilities<M>, a: GroupedLiftMetrics<M>, b: GroupedLiftMetrics<M>)
    requires Commutative(caps.add)
    requires |a.subGroupMetrics| == |b.subGroupMetrics|
    ensures Plus(caps, a, b) == Plus(caps, b, a)
  {}

  lemma PlusAssociative<M(!new)>(caps: Capabilities<M>, a: GroupedLiftMetrics<M>, b: GroupedLiftMetrics<M>, c: GroupedLiftMetrics<M>)
    requires Associative(caps.add)
    requires |a.subGroupMetrics| == |b.subGroupMetrics| == |c.subGroupMetrics|
    ensures Plus(caps, Plus(caps, a, b), c) == Plus(caps, a, Plus(caps, b, c))
  {}

  lemma XorCommutative<M(!new)>(caps: Capabilities<M>, a: GroupedLiftMetrics<M>, b: GroupedLiftMetrics<M>)
    requires Commutative(caps.xor)
    requires |a.subGroupMetrics| == |b.subGroupMetrics|
    ensures Xor(caps, a, b) == Xor(caps, b, a)
  {}

  lemma XorAssociative<M(!new)>(caps: Capabilities<M>, a: GroupedLiftMetrics<M>, b: GroupedLiftMetrics<M>, c: GroupedLiftMetrics<M>)
    requires Associative(caps.xor)
    requires |a.subGroupMetrics| == |b.subGroupMetrics| == |c.subGroupMetrics|
    ensures Xor(caps, Xor(caps, a, b), c) == Xor(caps, a, Xor(caps, b, c))
  {}

  // ---------------------------------------------------------------------------
  // Encoding
  // ---------------------------------------------------------------------------

  /** The records of `s`, each converted with `f`, in the same order. */
  function Transform<M>(f: M -> Json, s: seq<M>): (r: seq<Json>)
    ensures |r| == |s|
    ensures forall i :: 0 <= i < |r| ==> r[i] == f(s[i])
  {
    if |s| == 0 then [] else Transform(f, s[..|s| - 1]) + [f(s[|s| - 1])]
  }

  /** The JSON object for `g`: "metrics" holds the summary's value, and
      "subGroupMetrics" an array with subgroup i's value at position i. */
  function Encode<M>(caps: Capabilities<M>, g: GroupedLiftMetrics<M>): (j: Json)
    ensures j.Object? && j.members.Keys == {MetricsKey, SubGroupMetricsKey}
    ensures j.members[MetricsKey] == caps.toDynamic(g.metrics)
    ensures var arr := j.members[SubGroupMetricsKey];
            arr.Array? && |arr.elems| == |g.subGroupMetrics|
            && forall i :: 0 <= i < |arr.elems| ==> arr.elems[i] == caps.toDynamic(g.subGroupMetrics[i])
  {
    Object(map[MetricsKey := caps.toDynamic(g.metrics),
               SubGroupMetricsKey := Array(Transform(caps.toDynamic, g.subGroupMetrics))])
  }

  /** `toJson`: collects the subgroups' values into an array one by one, then
      builds the object. */
  method ToJson<M>(caps: Capabilities<M>, g: GroupedLiftMetrics<M>) returns (j: Json)
    ensures j == Encode(caps, g)
  {
    var sub := g.subGroupMetrics;
    var container: seq<Json> := [];
    for i := 0 to |sub|
      invariant container == Transform(caps.toDynamic, sub[..i])
    {
      assert sub[..i + 1][..i] == sub[..i];
      container := container + [caps.toDynamic(sub[i])];
    }
    assert sub[..|sub|] == sub;
    j := Object(map[MetricsKey := caps.toDynamic(g.metrics), SubGroupMetricsKey := Array(container)]);
  }

  // ---------------------------------------------------------------------------
  // Decoding
  // ---------------------------------------------------------------------------

  /** Reads the subgroup records from `elems` in order, stopping at the first
      element that is not a record. */
  function DecodeSubGroups<M>(caps: Capabilities<M>, elems: seq<Json>): (r: Result<seq<M>, DecodeError>)
    ensures r.Success? <==> forall i :: 0 <= i < |elems| ==> caps.fromDynamic(elems[i]).Some?
    ensures r.Success? ==>
              && |r.value| == |elems|
              && forall i :: 0 <= i < |elems| ==> caps.fromDynamic(elems[i]) == Some(r.value[i])
    ensures r.Failure? ==>
              && r.error.InvalidSubGroup? && r.error.index < |elems|
              && caps.fromDynamic(elems[r.error.index]).None?
              && forall i :: 0 <= i < r.error.index ==> caps.fromDynamic(elems[i]).Some?
  {
    if |elems| == 0 then Success([])
    else
      var n := |elems| - 1;
      match DecodeSubGroups(caps, elems[..n])
      case Failure(e) => Failure(e)
      case Success(prefix) =>
        match caps.fromDynamic(elems[n])
        case None => Failure(InvalidSubGroup(n))
        case Some(m) => Success(prefix + [m])
  }

  /** Reads grouped metrics from a JSON object: first every element of the
      "subGroupMetrics" array, then the "metrics" member. Other members are
      ignored. */
  function Decode<M>(caps: Capabilities<M>, j: Json): (r: Result<GroupedLiftMetrics<M>, DecodeError>)
    ensures !j.Object? ==> r == Failure(NotAnObject)
    ensures j.Object? && SubGroupMetricsKey !in j.members ==> r == Failure(MissingMember(SubGroupMetricsKey))
    ensures j.Object? && SubGroupMetricsKey in j.members && !j.members[SubGroupMetricsKey].Array? ==>
              r == Failure(NotAnArray(SubGroupMetricsKey))
    ensures r.Success? <==>
              && j.Object? && MetricsKey in j.members && SubGroupMetricsKey in j.members
              && j.members[SubGroupMetricsKey].Array?
              && caps.fromDynamic(j.members[MetricsKey]).Some?
              && forall i :: 0 <= i < |j.members[SubGroupMetricsKey].elems| ==>
                   caps.fromDynamic(j.members[SubGroupMetricsKey].elems[i]).Some?
    ensures r.Success? ==>
              && Some(r.value.metrics) == caps.fromDynamic(j.members[MetricsKey])
              && |r.value.subGroupMetrics| == |j.members[SubGroupMetricsKey].elems|
              && forall i :: 0 <= i < |r.value.subGroupMetrics| ==>
                   Some(r.value.subGroupMetrics[i]) == caps.fromDynamic(j.members[SubGroupMetricsKey].elems[i])
  {
    match j
    case Object(members) =>
      if SubGroupMetricsKey !in members then Failure(MissingMember(SubGroupMetricsKey))
      else
        (match members[SubGroupMetricsKey]
         case Array(elems) =>
           (match DecodeSubGroups(caps, elems)
            case Failure(e) => Failure(e)
            case Success(container) =>
              if MetricsKey !in members then Failure(MissingMember(MetricsKey))
              else
                match caps.fromDynamic(members[MetricsKey])
                case None => Failure(InvalidMetrics)
                case Some(m) => Success(GroupedLiftMetrics(m, container)))
         case _ => Failure(NotAnArray(SubGroupMetricsKey)))
    case _ => Failure(NotAnObject)
  }

  /** `fromJson`: reads the subgroup records into a vector one by one, then the
      summary record. */
  method FromJson<M>(caps: Capabilities<M>, j: Json) returns (r: Result<GroupedLiftMetrics<M>, DecodeError>)
    ensures r == Decode(caps, j)
  {
    if !j.Object? {
      return Failure(NotAnObject);
    }
    if SubGroupMetricsKey !in j.members {
      return Failure(MissingMember(SubGroupMetricsKey));
    }
    var arr := j.members[SubGroupMetricsKey];
    if !arr.Array? {
      return Failure(NotAnArray(SubGroupMetricsKey));
    }
    var elems := arr.elems;
    var container: seq<M> := [];
    for i := 0 to |elems|
      invariant DecodeSubGroups(caps, elems[..i]) == Success(container)
    {
      assert elems[..i + 1][..i] == elems[..i];
      match caps.fromDynamic(elems[i])
      case None =>
        return Failure(InvalidSubGroup(i));
      case Some(m) =>
        container := container + [m];
    }
    assert elems[..|elems|] == elems;
    if MetricsKey !in j.members {
      return Failure(MissingMember(MetricsKey));
    }
    match caps.fromDynamic(j.members[MetricsKey])
    case None =>
      r := Failure(InvalidMetrics);
    case Some(m) =>
      r := Success(GroupedLiftMetrics(m, container));
  }

  // ---------------------------------------------------------------------------
  // Round trips
  // ---------------------------------------------------------------------------

  /** Reading back the JSON object written for `g` gives `g`, subgroup order and
      count included, whenever single records survive the same round trip. */
  lemma DecodeEncode<M(!new)>(caps: Capabilities<M>, g: GroupedLiftMetrics<M>)
    requires RoundTrips(caps)
    ensures Decode(caps, Encode(caps, g)) == Success(g)
  {
    var r := Decode(caps, Encode(caps, g));
    assert r.Success?;
    assert r.value.subGroupMetrics == g.subGroupMetrics;
  }

  /** Conversely, an object with exactly the two members that decodes is the
      object written for what it decodes to, whenever records are written in
      the only form they can be read from. */
  lemma EncodeDecode<M(!new)>(caps: Capabilities<M>, j: Json)
    requires Canonical(caps)
    requires j.Object? && j.members.Keys == {MetricsKey, SubGroupMetricsKey}
    requires Decode(caps, j).Success?
    ensures Encode(caps, Decode(caps, j).value) == j
  {
    var e := Encode(caps, Decode(caps, j).value);
    assert e.members[SubGroupMetricsKey].elems == j.members[SubGroupMetricsKey].elems;
    assert e.members == j.members;
  }
}
