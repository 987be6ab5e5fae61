# FieldInfo: a class-file field descriptor

This project models `FieldInfo` from FindBugs' class-file analysis layer. It
describes one field of one Java class, as observed by the bytecode analyser.
There are two parts:

- `FieldInfoBuilder.Builder` is the mutable accumulator that the class-file
  decoder drives. The class name, field name, raw signature and access flags
  are fixed at construction. The source-level signature and the annotations
  (a map keyed by annotation class, last write wins) are then recorded in
  place. `Build` freezes that state into a resolved `FieldInfo`.
- `FieldInfos.FieldInfo` is the immutable value. Its one constructor,
  `MakeFieldInfo`, takes static-ness from the raw `ACC_STATIC` bit and forces
  `ACC_FINAL` on for a compiler-generated outer-instance reference (a name
  starting with `this$`). It answers modifier queries, the reference-type
  test, annotation lookup and `compareTo`. `CreateUnresolvedFieldInfo` builds
  the placeholder for a field of a class that could not be loaded.

The flag values follow Table 4.5-A in section 4.5 of the Java Virtual Machine
Specification (Java SE 8). `ACC_SYNCHRONIZED` and `ACC_NATIVE` are the
method flags of section 4.6. The reference-type test follows the
field-descriptor grammar of section 4.3.2. Flags are `bv32`, a Java `int`.

Files:

- `wrappers.dfy`: `Option` for Java's `null`, and `Result` for a thrown exception.
- `access_flags.dfy`: the flag constants, `checkFlag`, and the `this$` rule.
- `descriptors.dfy`: annotation-class keys and the field identity.
- `annotations.dfy`: annotation maps, their value collection, and last-write-wins.
- `field_info.dfy`: the `FieldInfo` value, its queries, both factories and `compareTo`.
- `builder.dfy`: the `Builder` class and a client scenario.

A built `FieldInfo` carries the builder's source signature unchanged. The
builder's field starts as `null` and `setSourceSignature` may set it to any
string or back to `null`, so a built value answers `None` if the setter was
never called (or was last called with `null`), and `Some(s)` after
`setSourceSignature(s)`. The unresolved placeholder always answers `Some("")`.

## Model

| member | source | states |
|---|---|---|
| `AccessFlags.AdjustedFlags` | src/java/edu/umd/cs/findbugs/classfile/analysis/FieldInfo.java:108 | the kept flags contain every raw bit, differ from the raw flags in no bit other than FINAL, and have FINAL set iff the raw FINAL bit was set or the name starts with `this$` |
| `AccessFlags.AdjustedKeepsOtherBits` | src/java/edu/umd/cs/findbugs/classfile/analysis/FieldInfo.java:108 | for any flag mask disjoint from FINAL, the test on the adjusted flags gives the same answer as on the raw flags |
| `FieldInfos.MakeFieldInfo` | src/java/edu/umd/cs/findbugs/classfile/analysis/FieldInfo.java:97-113 | the constructed value is well formed (static-ness equals the raw STATIC bit; a `this$` field is FINAL); its identity, adjusted flags, source signature, both annotation maps and resolution flag are the arguments given |
| `FieldInfos.ModifierQueries` | src/java/edu/umd/cs/findbugs/classfile/analysis/FieldInfo.java:120-215 | `IsFinal` holds iff the raw FINAL bit was set or the name starts with `this$`; `IsPublic`, `IsPrivate`, `IsProtected`, `IsVolatile`, `IsSynchronized` and `IsNative` each hold iff their own bit was set in the raw flags |
| `FieldInfos.StaticAgreesWithFlags` | src/java/edu/umd/cs/findbugs/classfile/analysis/FieldInfo.java:107-108 | for all constructor arguments, the identity's static-ness is the raw STATIC bit and equals the STATIC bit of the kept flags `GetAccessFlags()` |
| `FieldInfos.ReferenceTypeIffFirstChar` | src/java/edu/umd/cs/findbugs/classfile/analysis/FieldInfo.java:205-207 | `IsReferenceType` holds iff the raw signature is non-empty and its first character is `L` or `[` |
| `FieldInfos.PrimitiveIsNotReferenceType` | src/java/edu/umd/cs/findbugs/classfile/analysis/FieldInfo.java:205-207 | an empty signature, or one starting with a base-type character (B, C, D, F, I, J, S, Z), is not a reference type |
| `Annotations.Lookup` | src/java/edu/umd/cs/findbugs/classfile/analysis/FieldInfo.java:220-222 | lookup is present iff the key is in the map, and then holds the stored value; a missing key gives absent, never a failure |
| `Annotations.ValuesOf` | src/java/edu/umd/cs/findbugs/classfile/analysis/FieldInfo.java:223-225 | the value collection has one element per key: its size is the map's size, it holds only stored values, and each value occurs as often as there are keys holding it |
| `FieldInfos.AnnotationQueries` | src/java/edu/umd/cs/findbugs/classfile/analysis/FieldInfo.java:217-225 | `GetAnnotation` is absent exactly for keys outside `GetAnnotationDescriptors`; a present value is among `GetAnnotations`; there are as many annotations as descriptors |
| `Annotations.LastPutWins` | src/java/edu/umd/cs/findbugs/classfile/analysis/FieldInfo.java:68-71 | after a sequence of puts, a key is present iff some put used it, and its value is the value of the last put under that key |
| `FieldInfos.CreateUnresolvedFieldInfo` | src/java/edu/umd/cs/findbugs/classfile/analysis/FieldInfo.java:234-244 | the placeholder is unresolved, has source signature `""` and no annotations; it is static and has the STATIC bit exactly when asked; it is FINAL exactly when the name starts with `this$`; it has no other flag bit |
| `FieldInfos.CompareTo` | src/java/edu/umd/cs/findbugs/classfile/analysis/FieldInfo.java:147-157 | comparison fails exactly for an argument that is neither a field descriptor nor a field-query object: with a class-cast error for a non-null object, with a null-pointer error for `null` (raised while building the class-cast message) |
| `FieldInfos.CompareWithFieldInfoUsesIdentity` | src/java/edu/umd/cs/findbugs/classfile/analysis/FieldInfo.java:147-150 | comparing with another FieldInfo is the same as comparing with its identity view; the identity order decides, whatever the factory's order is |
| `FieldInfos.CompareWithXFieldUsesFactory` | src/java/edu/umd/cs/findbugs/classfile/analysis/FieldInfo.java:152-154 | for a field-query object that is not a descriptor, the factory's order decides, whatever the identity order is |
| `FieldInfoBuilder.Builder.constructor` | src/java/edu/umd/cs/findbugs/classfile/analysis/FieldInfo.java:57-62 | fixes class name, field name, raw signature and raw flags; starts with no source signature and no annotations |
| `FieldInfoBuilder.Builder.SetSourceSignature` | src/java/edu/umd/cs/findbugs/classfile/analysis/FieldInfo.java:64-66 | records the given source signature, or `None` for `null`, overwriting an earlier one, and changes nothing else |
| `FieldInfoBuilder.Builder.AddAnnotation` | src/java/edu/umd/cs/findbugs/classfile/analysis/FieldInfo.java:68-71 | the key derived from the name now maps to the new value; every other key maps to what it did before; the key set grows by that one key |
| `FieldInfoBuilder.Builder.Build` | src/java/edu/umd/cs/findbugs/classfile/analysis/FieldInfo.java:73-76 | the result is resolved and well formed; it has the builder's identity, adjusted flags, current source signature (absent if never set) and annotation keys; each key maps to the value of its last put, keys never put are absent; the parameter-annotation map is empty |
| `FieldInfoBuilder.AnnotationRoundTrip` | src/java/edu/umd/cs/findbugs/classfile/analysis/FieldInfo.java:68-76 | a value put and then built is read back; a second put under the same name replaces it; an annotation under another key is read back unchanged |

## Left out

- `getNumParams` is not modelled. It delegates to `SignatureParser`, and `SignatureParser` is not part of this model.
- `getClassName` and `getPackageName` are not modelled. They ask the owning class's `ClassDescriptor`, and `ClassDescriptor` is not part of this model.
- `Descriptors.ClassDescriptorFromSignature` stands in for `ClassDescriptor.createClassDescriptorFromSignature`. The real conversion normalises the signature. The model keys annotations by a fixed function of the name. The annotation properties rely on nothing more.
- `Builder.Build` takes a value snapshot of the annotation map. The Java code wraps the builder's own `HashMap` with `Util.immutableMap`, and that helper is not part of this model. If it returns a view, a `FieldInfo` built earlier would see later `addAnnotation` calls. The model does not capture that aliasing.
- `FieldInfos.CompareTo` takes the identity order (`FieldDescriptor.compareTo`) and the factory order (`XFactory.compare`) as function parameters. Neither body is part of this model, so the ordering's own properties (totality, the class/name/signature/static priority) are not stated.
- `FieldInfos.FieldInfo.GetAnnotations` is a multiset of values. It does not model a live Java `Collection` view or its iteration order.
- Annotation values are an opaque type parameter. Their contents and decoding are not modelled.
- Identity equality and hashing belong to the external factory layer and are not modelled.
- Thread safety is not modelled. Nothing in this core is concurrent.
