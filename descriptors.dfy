/** The identities a field descriptor is built from. */
module Descriptors {

  /**
   * The identity of an annotation class, used as the key of an annotation
   * map. Only equality of keys matters to this model.
   */
  datatype ClassDescriptor = ClassDescriptor(signature: string)

  /**
   * The key under which an annotation named by a type signature is stored.
   * The real conversion normalises the signature; here the key is derived
   * from the name by a fixed function, which is all the annotation
   * properties rely on.
   */
  function ClassDescriptorFromSignature(name: string): ClassDescriptor {
    ClassDescriptor(name)
  }

  /**
   * The identity part of a field: owning class (dotted), field name, raw
   * erased signature and static-ness.
   */
  datatype FieldDescriptor = FieldDescriptor(className: string, name: string, signature: string, isStatic: bool)
}
