/**
 * The mutable accumulator a class-file decoder drives: identity and raw
 * flags fixed at construction, then a source signature and annotations
 * recorded in place, then `Build` freezes the state into a resolved
 * FieldInfo.
 */
module FieldInfoBuilder {
  import opened Wrappers
  import opened AccessFlags
  import opened Descriptors
  import opened Annotations
  import opened FieldInfos

  class Builder<V> {
    const accessFlags: Flags
    const className: string
    const fieldName: string
    const fieldSignature: string

    var fieldSourceSignature: Option<string>
    var fieldAnnotations: AnnotationMap<V>
    /** Never added to: fields have no parameters. */
    const fieldParameterAnnotations: map<int, AnnotationMap<V>>

    /** Every annotation put so far, oldest first. */
    ghost var puts: seq<Put<V>>

    ghost predicate Valid()
      reads this
    {
      fieldAnnotations == AnnotationsOf(puts) &&
      fieldParameterAnnotations == map[]
    }

    constructor (className: string, fieldName: string, fieldSignature: string, accessFlags: Flags)
      ensures Valid()
      ensures this.className == className && this.fieldName == fieldName
      ensures this.fieldSignature == fieldSignature && this.accessFlags == accessFlags
      ensures fieldSourceSignature == None
      ensures puts == [] && fieldAnnotations == map[]
    {
      this.className := className;
      this.fieldName := fieldName;
      this.fieldSignature := fieldSignature;
      this.accessFlags := accessFlags;
      fieldSourceSignature := None;
      fieldAnnotations := map[];
      fieldParameterAnnotations := map[];
      puts := [];
    }

    /**
     * Records the source-level signature; a later call overwrites an earlier
     * one, and `None` (a `null` argument) clears it again.
     */
    method SetSourceSignature(fieldSourceSignature: Option<string>)
      requires Valid()
      modifies this`fieldSourceSignature
      ensures Valid()
      ensures this.fieldSourceSignature == fieldSourceSignature
    {
      this.fieldSourceSignature := fieldSourceSignature;
    }

    /**
     * Stores `value` under the annotation class named by `name`, replacing
     * what was stored under that class and leaving every other key alone.
     */
    method AddAnnotation(name: string, value: V)
      requires Valid()
      modifies this`fieldAnnotations, this`puts
      ensures Valid()
      ensures puts == old(puts) + [Put(ClassDescriptorFromSignature(name), value)]
      ensures Lookup(fieldAnnotations, ClassDescriptorFromSignature(name)) == Some(value)
      ensures forall k :: k != ClassDescriptorFromSignature(name) ==>
                Lookup(fieldAnnotations, k) == Lookup(old(fieldAnnotations), k)
      ensures fieldAnnotations.Keys == old(fieldAnnotations).Keys + {ClassDescriptorFromSignature(name)}
    {
      var annotationClass := ClassDescriptorFromSignature(name);
      fieldAnnotations := fieldAnnotations[annotationClass := value];
      puts := puts + [Put(annotationClass, value)];
    }

    /**
     * A resolved FieldInfo with this builder's identity, adjusted flags and
     * current source signature, whose annotations are a snapshot of the
     * ones put so far: for each key, the value of its last put.
     */
    method Build() returns (r: FieldInfo<V>)
      requires Valid()
      ensures r.IsResolved() && r.WellFormed()
      ensures r.GetFieldDescriptor() == FieldDescriptor(className, fieldName, fieldSignature, Has(accessFlags, ACC_STATIC))
      ensures r.GetAccessFlags() == AdjustedFlags(fieldName, accessFlags)
      ensures r.GetSourceSignature() == fieldSourceSignature
      ensures r.GetAnnotationDescriptors() == fieldAnnotations.Keys
      ensures forall k :: r.GetAnnotation(k) == Lookup(fieldAnnotations, k)
      ensures forall k, i :: IsLastPut(puts, k, i) ==> r.GetAnnotation(k) == Some(puts[i].value)
      ensures forall k :: (forall i :: 0 <= i < |puts| ==> puts[i].key != k) ==> r.GetAnnotation(k) == None
      ensures r.fieldParameterAnnotations == map[]
    {
      r := MakeFieldInfo(className, fieldName, fieldSignature, fieldSourceSignature, accessFlags,
                         fieldAnnotations, fieldParameterAnnotations, true);
      forall k
        ensures (forall i :: IsLastPut(puts, k, i) ==> r.GetAnnotation(k) == Some(puts[i].value))
        ensures (forall i :: 0 <= i < |puts| ==> puts[i].key != k) ==> r.GetAnnotation(k) == None
      {
        LastPutWins(puts, k);
      }
    }
  }

  /**
   * A decoder's view of last-write-wins: put `first` and then `second`
   * under the same annotation name, building after each, and look the
   * annotation up in each built FieldInfo; an annotation under another key
   * is never disturbed.
   */
  method AnnotationRoundTrip<V>(className: string, fieldName: string, fieldSignature: string, accessFlags: Flags,
                                name: string, first: V, second: V, otherName: string, other: V)
    returns (afterFirst: Option<V>, afterSecond: Option<V>, untouched: Option<V>)
    requires ClassDescriptorFromSignature(otherName) != ClassDescriptorFromSignature(name)
    ensures afterFirst == Some(first)
    ensures afterSecond == Some(second)
    ensures untouched == Some(other)
  {
    var b := new Builder(className, fieldName, fieldSignature, accessFlags);
    b.AddAnnotation(otherName, other);
    b.AddAnnotation(name, first);
    var f1 := b.Build();
    afterFirst := f1.GetAnnotation(ClassDescriptorFromSignature(name));
    b.AddAnnotation(name, second);
    var f2 := b.Build();
    afterSecond := f2.GetAnnotation(ClassDescriptorFromSignature(name));
    untouched := f2.GetAnnotation(ClassDescriptorFromSignature(otherName));
  }
}
