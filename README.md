# Grouped lift metrics

A model of `GroupedLiftMetrics`, the container that merges partial lift-measurement
results. One value holds a summary `LiftMetrics` record (`metrics`) and an ordered
vector of per-subgroup `LiftMetrics` records (`subGroupMetrics`). Position i in the
vector always denotes the same subgroup, across every value that may be combined
with another.

The container offers four things:

- structural equality;
- `+`, which adds partial results (for example, from two data partitions);
- `^`, which rebuilds a plaintext result from two secret shares;
- a JSON form. This is an object with the two members `"metrics"` and
  `"subGroupMetrics"`, and the second is an array whose element order matters.

Both combinations apply the record's own operator to the two summaries, and to
each pair of subgroups at the same position.

The model is in five modules:

- `Wrappers` (`wrappers.dfy`): `Option` and `Result`.
- `Dynamic` (`dynamic.dfy`): the structured JSON value that records are converted
  to and from, with null, boolean, number, string, array and object values. An
  object is a map, because member order carries no meaning.
- `LiftMetrics` (`lift_metrics.dfy`): the record type is left abstract. It is a
  type parameter `M`, and a `Capabilities<M>` value carries its `+`, `^`,
  `toDynamic` and `fromDynamic`. The laws that the grouped operators inherit
  (`Commutative`, `Associative`, `RoundTrips`, `Canonical`) are predicates. The
  lemmas that depend on them require them.
- `VectorUtil` (`vector_util.dfy`): `Pointwise` combines two equally long vectors
  position by position. It is the helper behind `pcf::vector::Add` and `Xor`.
- `GroupedLift` (`grouped_lift_metrics.dfy`): the container, its operators, its
  encoding and decoding, and their laws.

Values are immutable datatypes. `Plus` and `Xor` build a new value and cannot
change their operands, which matches the `const` member functions of the source.

## Model

| member | source | states |
|---|---|---|
| `GroupedLift.Equal` | lift/common/GroupedLiftMetrics.cpp:18-21 | Equal exactly when the summaries are equal and the subgroup vectors have the same length and agree position by position. This is the same as value identity. |
| `GroupedLift.EqualReflexive` | lift/common/GroupedLiftMetrics.cpp:18-21 | Every value equals itself. |
| `GroupedLift.EqualSymmetric` | lift/common/GroupedLiftMetrics.cpp:18-21 | Equality does not depend on the order of its operands. |
| `GroupedLift.EqualTransitive` | lift/common/GroupedLiftMetrics.cpp:18-21 | Equality is transitive. |
| `GroupedLift.EqualIsOrderSensitive` | lift/common/GroupedLiftMetrics.cpp:18-21 | Exchanging two different subgroup records gives a value that is not equal to the original. |
| `VectorUtil.Pointwise` | lift/common/GroupedLiftMetrics.cpp:27 | Vector addition or xor of two equally long vectors: same length, and element i is the operator applied to the two elements i. |
| `VectorUtil.PointwiseCommutative` | lift/common/GroupedLiftMetrics.cpp:34 | If the record operator is commutative, so is its position-by-position lift to vectors. |
| `VectorUtil.PointwiseAssociative` | lift/common/GroupedLiftMetrics.cpp:34 | If the record operator is associative, so is its position-by-position lift to vectors. |
| `GroupedLift.Plus` | lift/common/GroupedLiftMetrics.cpp:23-28 | For equally long subgroup vectors: the summary is `add` of the two summaries, the subgroup count is kept, and subgroup i is `add` of the two subgroups i. |
| `GroupedLift.Xor` | lift/common/GroupedLiftMetrics.cpp:30-35 | For equally long subgroup vectors: the summary is `xor` of the two summaries, the subgroup count is kept, and subgroup i is `xor` of the two subgroups i. |
| `GroupedLift.PlusCommutative` | lift/common/GroupedLiftMetrics.cpp:23-28 | If record `add` is commutative, then `a + b == b + a`. |
| `GroupedLift.PlusAssociative` | lift/common/GroupedLiftMetrics.cpp:23-28 | If record `add` is associative, then `(a + b) + c == a + (b + c)`. |
| `GroupedLift.XorCommutative` | lift/common/GroupedLiftMetrics.cpp:30-35 | If record `xor` is commutative, then `a ^ b == b ^ a`. |
| `GroupedLift.XorAssociative` | lift/common/GroupedLiftMetrics.cpp:30-35 | If record `xor` is associative, then `(a ^ b) ^ c == a ^ (b ^ c)`. |
| `GroupedLift.Transform` | lift/common/GroupedLiftMetrics.cpp:42-47 | Converting the subgroups keeps their count and order: element i is `toDynamic` of subgroup i. |
| `GroupedLift.Encode` | lift/common/GroupedLiftMetrics.cpp:41-52 | The result is an object with exactly the members `"metrics"` and `"subGroupMetrics"`. `"metrics"` is `toDynamic` of the summary. `"subGroupMetrics"` is an array as long as the subgroup vector, and element i is `toDynamic` of subgroup i. |
| `GroupedLift.ToJson` | lift/common/GroupedLiftMetrics.cpp:41-52 | The element-by-element build of the array and object gives exactly `Encode`. |
| `GroupedLift.DecodeSubGroups` | lift/common/GroupedLiftMetrics.cpp:56-61 | Decoding succeeds exactly when every element decodes. On success, the result is as long as the array and record i is what element i decodes to. On failure, it names the first element that does not decode. |
| `GroupedLift.Decode` | lift/common/GroupedLiftMetrics.cpp:54-65 | Non-objects, a missing `"subGroupMetrics"` and a non-array `"subGroupMetrics"` each fail with their own error. Decoding succeeds exactly when both members are present, `"subGroupMetrics"` is an array, and the summary and every element decode. On success, the summary and subgroups are those decoded values, in array order and count. |
| `GroupedLift.FromJson` | lift/common/GroupedLiftMetrics.cpp:54-65 | The element-by-element read of the array, followed by the summary, gives exactly `Decode`, including which error is reported. |
| `GroupedLift.DecodeEncode` | lift/common/GroupedLiftMetrics.cpp:41-65 | If single records round-trip through `toDynamic`/`fromDynamic`, decoding the encoding of `g` gives back `g`, with subgroup order and count kept. |
| `GroupedLift.EncodeDecode` | lift/common/GroupedLiftMetrics.cpp:41-65 | Suppose records have a single readable form. Then an object with exactly the two members that decodes is re-encoded as that same object. |

## Left out

- `operator<<` (lift/common/GroupedLiftMetrics.cpp:37-39) writes the JSON text to a stream. This is output plumbing.
- The JSON text layer (`folly::toJson` and `folly::parseJson`) is a foreign library. `Encode`/`ToJson` stop at the structured value, and `Decode`/`FromJson` start from one. Malformed text is therefore not modelled.
- Decoding failures are a modelling choice. The source throws whatever the JSON library and `LiftMetrics::fromDynamic` throw. The model returns a `DecodeError` naming the first problem, in the source's reading order: `"subGroupMetrics"` and its elements first, then `"metrics"`. A missing `"metrics"` member is reported as `MissingMember`. The library's own behaviour for a missing key (its non-const `operator[]` on an object) is not modelled.
- The fields, arithmetic, equality and JSON conversion of `LiftMetrics` are not part of this model. Its `+`, `^`, `toDynamic` and `fromDynamic` are parameters. Commutativity, associativity and the record round trip are hypotheses of the lemmas that need them. Record equality is taken to be value identity.
- Numbers in the structured value are integers only. Floating-point values are not modelled.
- The behaviour of `pcf::vector::Add`/`Xor` on vectors of different lengths is not visible. `Pointwise`, `Plus` and `Xor` require equal lengths.
