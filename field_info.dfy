/**
 * The immutable descriptor of one field of one class: its identity, its
 * adjusted access flags, its source-level signature, its frozen annotation
 * maps and whether it came from a parsed class file (resolved) or stands in
 * for a field of a class that could not be loaded (unresolved).
 */
module FieldInfos {
  import opened Wrappers
  import opened AccessFlags
  import opened Descriptors
  import opened Annotations

  /**
   * A field descriptor together with what the class file says about the
   * field. `sourceSignature` is `None` where the Java field holds `null`.
   * Build values only with `MakeFieldInfo`, the one constructor.
   */
  datatype FieldInfo<V> = FieldInfo(
    descriptor: FieldDescriptor,
    accessFlags: Flags,
    sourceSignature: Option<string>,
    fieldAnnotations: AnnotationMap<V>,
    fieldParameterAnnotations: map<int, AnnotationMap<V>>,
    isResolved: bool)
  {
    predicate CheckFlag(flag: Flags) {
      Has(accessFlags, flag)
    }

    predicate IsNative() { CheckFlag(ACC_NATIVE) }
    predicate IsSynchronized() { CheckFlag(ACC_SYNCHRONIZED) }
    predicate IsFinal() { CheckFlag(ACC_FINAL) }
    predicate IsPrivate() { CheckFlag(ACC_PRIVATE) }
    predicate IsProtected() { CheckFlag(ACC_PROTECTED) }
    predicate IsPublic() { CheckFlag(ACC_PUBLIC) }
    predicate IsVolatile() { CheckFlag(ACC_VOLATILE) }

    /** Static-ness as the identity records it. */
    predicate IsStatic() { descriptor.isStatic }

    predicate IsResolved() { isResolved }

    /** The raw signature names a class or interface type (`L...;`) or an array type (`[...`). */
    predicate IsReferenceType() {
      StartsWith(descriptor.signature, "L") || StartsWith(descriptor.signature, "[")
    }

    function GetAccessFlags(): Flags { accessFlags }

    function GetSourceSignature(): Option<string> { sourceSignature }

    function GetFieldDescriptor(): FieldDescriptor { descriptor }

    function GetAnnotationDescriptors(): set<ClassDescriptor> { fieldAnnotations.Keys }

    function GetAnnotation(desc: ClassDescriptor): Option<V> { Lookup(fieldAnnotations, desc) }

    /** `getAnnotations()`; ghost because the value multiset is kept for specification only. */
    ghost function GetAnnotations(): multiset<V> { ValuesOf(fieldAnnotations) }

    /**
     * What construction guarantees: static-ness agrees with the STATIC bit,
     * and an outer-instance reference is FINAL.
     */
    ghost predicate WellFormed() {
      descriptor.isStatic == Has(accessFlags, ACC_STATIC) &&
      (IsOuterThisName(descriptor.name) ==> Has(accessFlags, ACC_FINAL))
    }
  }

  /**
   * The private constructor: static-ness comes from the raw STATIC bit, and
   * the kept flags are the raw flags with FINAL forced on for `this$` names.
   */
  function MakeFieldInfo<V>(
    className: string,
    fieldName: string,
    fieldSignature: string,
    fieldSourceSignature: Option<string>,
    accessFlags: Flags,
    fieldAnnotations: AnnotationMap<V>,
    fieldParameterAnnotations: map<int, AnnotationMap<V>>,
    isResolved: bool): (r: FieldInfo<V>)
    ensures r.WellFormed()
    ensures r.GetAccessFlags() == AdjustedFlags(fieldName, accessFlags)
    ensures r.GetFieldDescriptor() == FieldDescriptor(className, fieldName, fieldSignature, Has(accessFlags, ACC_STATIC))
    ensures r.IsFinal() <==> Has(accessFlags, ACC_FINAL) || IsOuterThisName(fieldName)
    ensures r.GetSourceSignature() == fieldSourceSignature
    ensures r.fieldAnnotations == fieldAnnotations
    ensures r.fieldParameterAnnotations == fieldParameterAnnotations
    ensures r.IsResolved() == isResolved
  {
    AdjustedKeepsOtherBits(fieldName, accessFlags, ACC_STATIC);
    FieldInfo(
      FieldDescriptor(className, fieldName, fieldSignature, Has(accessFlags, ACC_STATIC)),
      AdjustedFlags(fieldName, accessFlags),
      fieldSourceSignature,
      fieldAnnotations,
      fieldParameterAnnotations,
      isResolved)
  }

  /**
   * Every modifier query other than `IsFinal` reads the raw bit supplied at
   * construction; `IsFinal` also holds for `this$` names.
   */
  lemma ModifierQueries<V>(
    className: string, fieldName: string, fieldSignature: string, fieldSourceSignature: Option<string>,
    accessFlags: Flags, fieldAnnotations: AnnotationMap<V>, fieldParameterAnnotations: map<int, AnnotationMap<V>>,
    isResolved: bool)
    ensures var f := MakeFieldInfo(className, fieldName, fieldSignature, fieldSourceSignature,
                                   accessFlags, fieldAnnotations, fieldParameterAnnotations, isResolved);
      && (f.IsFinal() <==> Has(accessFlags, ACC_FINAL) || IsOuterThisName(fieldName))
      && (f.IsPublic() <==> Has(accessFlags, ACC_PUBLIC))
      && (f.IsPrivate() <==> Has(accessFlags, ACC_PRIVATE))
      && (f.IsProtected() <==> Has(accessFlags, ACC_PROTECTED))
      && (f.IsVolatile() <==> Has(accessFlags, ACC_VOLATILE))
      && (f.IsSynchronized() <==> Has(accessFlags, ACC_SYNCHRONIZED))
      && (f.IsNative() <==> Has(accessFlags, ACC_NATIVE))
  {
    AdjustedKeepsOtherBits(fieldName, accessFlags, ACC_PUBLIC);
    AdjustedKeepsOtherBits(fieldName, accessFlags, ACC_PRIVATE);
    AdjustedKeepsOtherBits(fieldName, accessFlags, ACC_PROTECTED);
    AdjustedKeepsOtherBits(fieldName, accessFlags, ACC_VOLATILE);
    AdjustedKeepsOtherBits(fieldName, accessFlags, ACC_SYNCHRONIZED);
    AdjustedKeepsOtherBits(fieldName, accessFlags, ACC_NATIVE);
  }

  /**
   * Static-ness of the identity is the raw STATIC bit, and it always agrees
   * with the STATIC bit of the kept flags, because the adjustment only ever
   * adds FINAL.
   */
  lemma StaticAgreesWithFlags<V>(
    className: string, fieldName: string, fieldSignature: string, fieldSourceSignature: Option<string>,
    accessFlags: Flags, fieldAnnotations: AnnotationMap<V>, fieldParameterAnnotations: map<int, AnnotationMap<V>>,
    isResolved: bool)
    ensures var f := MakeFieldInfo(className, fieldName, fieldSignature, fieldSourceSignature,
                                   accessFlags, fieldAnnotations, fieldParameterAnnotations, isResolved);
      && (f.IsStatic() <==> Has(accessFlags, ACC_STATIC))
      && (f.IsStatic() <==> Has(f.GetAccessFlags(), ACC_STATIC))
  {
    AdjustedKeepsOtherBits(fieldName, accessFlags, ACC_STATIC);
  }

  /** A field is of reference type exactly when its descriptor starts with `L` or `[`. */
  lemma ReferenceTypeIffFirstChar<V>(f: FieldInfo<V>)
    ensures f.IsReferenceType() <==>
      |f.descriptor.signature| > 0 && (f.descriptor.signature[0] == 'L' || f.descriptor.signature[0] == '[')
  {
    var s := f.descriptor.signature;
    if |s| > 0 {
      assert StartsWith(s, "L") <==> s[0] == 'L' by { assert s[..1] == [s[0]]; }
      assert StartsWith(s, "[") <==> s[0] == '[' by { assert s[..1] == [s[0]]; }
    }
  }

  /** The base-type descriptor characters of section 4.3.2 of the JVM specification. */
  const BASE_TYPES: string := "BCDFIJSZ"

  /** Empty signatures and primitive descriptors are not reference types. */
  lemma PrimitiveIsNotReferenceType<V>(f: FieldInfo<V>)
    requires |f.descriptor.signature| == 0 || f.descriptor.signature[0] in BASE_TYPES
    ensures !f.IsReferenceType()
  {
    ReferenceTypeIffFirstChar(f);
  }

  /**
   * Annotation queries read the frozen map: lookup of a missing key is
   * absent, the descriptors are exactly the keys, and every value stored
   * under a key is among the annotations.
   */
  lemma AnnotationQueries<V>(f: FieldInfo<V>, desc: ClassDescriptor)
    ensures f.GetAnnotation(desc) == None <==> desc !in f.GetAnnotationDescriptors()
    ensures f.GetAnnotation(desc).Some? ==> f.GetAnnotation(desc).value in f.GetAnnotations()
    ensures |f.GetAnnotations()| == |f.GetAnnotationDescriptors()|
  {
    if desc in f.fieldAnnotations {
      assert f.fieldAnnotations[desc] in f.fieldAnnotations.Values;
      assert desc in KeysHolding(f.fieldAnnotations, f.fieldAnnotations[desc]);
    }
  }

  /**
   * The placeholder for a field of a class that could not be loaded: not
   * resolved, source signature "", no annotations, and flags STATIC or
   * nothing, with FINAL forced on for a `this$` name.
   */
  function CreateUnresolvedFieldInfo<V>(className: string, name: string, signature: string, isStatic: bool): (r: FieldInfo<V>)
    ensures !r.IsResolved()
    ensures r.GetSourceSignature() == Some("")
    ensures r.GetAnnotationDescriptors() == {} && r.GetAnnotations() == multiset{}
    ensures r.fieldParameterAnnotations == map[]
    ensures r.GetFieldDescriptor() == FieldDescriptor(className, name, signature, isStatic)
    ensures r.IsStatic() == isStatic && Has(r.GetAccessFlags(), ACC_STATIC) == isStatic
    ensures r.IsFinal() == IsOuterThisName(name)
    ensures r.GetAccessFlags() & !(ACC_STATIC | ACC_FINAL) == 0
    ensures r.WellFormed()
  {
    MakeFieldInfo(className, name, signature, Some(""), if isStatic then ACC_STATIC else 0,
                  map[], map[], false)
  }

  /**
   * The argument of `compareTo`, by what it is at run time: a plain
   * identity, another field descriptor value, some other implementation of
   * the field-query interface, an object that is none of these, or `null`.
   */
  datatype Comparand<V, X> =
    | DescriptorArg(fd: FieldDescriptor)
    | FieldInfoArg(info: FieldInfo<V>)
    | XFieldArg(field: X)
    | OtherArg
    | NullArg

  datatype CompareError = ClassCastException | NullPointerException

  /**
   * `compareTo`: identity ordering for any field descriptor (a FieldInfo is
   * one), the cross-reference factory's order for any other field-query
   * object, and a class-cast failure otherwise. The two orders are supplied
   * by the caller. A `null` argument fails both type tests and then fails
   * with a null-pointer error while the class-cast message is being built.
   */
  function CompareTo<V, X>(
    self: FieldInfo<V>,
    rhs: Comparand<V, X>,
    identityCompare: (FieldDescriptor, FieldDescriptor) -> int,
    xFieldCompare: (FieldInfo<V>, X) -> int): (r: Result<int, CompareError>)
    ensures r.Err? <==> rhs.OtherArg? || rhs.NullArg?
    ensures r == Err(ClassCastException) <==> rhs.OtherArg?
    ensures r == Err(NullPointerException) <==> rhs.NullArg?
  {
    match rhs
    case DescriptorArg(fd) => Ok(identityCompare(self.GetFieldDescriptor(), fd))
    case FieldInfoArg(info) => Ok(identityCompare(self.GetFieldDescriptor(), info.GetFieldDescriptor()))
    case XFieldArg(x) => Ok(xFieldCompare(self, x))
    case OtherArg => Err(ClassCastException)
    case NullArg => Err(NullPointerException)
  }

  /**
   * Comparing with another FieldInfo is comparing with its identity view:
   * the identity order decides, and the factory's order is never consulted.
   */
  lemma CompareWithFieldInfoUsesIdentity<V, X>(
    self: FieldInfo<V>, other: FieldInfo<V>,
    identityCompare: (FieldDescriptor, FieldDescriptor) -> int,
    xFieldCompare: (FieldInfo<V>, X) -> int,
    anyXFieldCompare: (FieldInfo<V>, X) -> int)
    ensures CompareTo(self, FieldInfoArg(other), identityCompare, xFieldCompare)
         == CompareTo(self, DescriptorArg(other.GetFieldDescriptor()), identityCompare, anyXFieldCompare)
         == Ok(identityCompare(self.descriptor, other.descriptor))
  {
  }

  /** For a field-query object that is not a descriptor, only the factory's order matters. */
  lemma CompareWithXFieldUsesFactory<V, X>(
    self: FieldInfo<V>, x: X,
    identityCompare: (FieldDescriptor, FieldDescriptor) -> int,
    anyIdentityCompare: (FieldDescriptor, FieldDescriptor) -> int,
    xFieldCompare: (FieldInfo<V>, X) -> int)
    ensures CompareTo(self, XFieldArg(x), identityCompare, xFieldCompare)
         == CompareTo(self, XFieldArg(x), anyIdentityCompare, xFieldCompare)
         == Ok(xFieldCompare(self, x))
  {
  }
}
