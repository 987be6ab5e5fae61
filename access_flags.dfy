/**
 * Access-flag bits of a class-file field (Table 4.5-A of section 4.5 of the
 * Java Virtual Machine Specification, Java SE 8), the two method-only bits of
 * section 4.6 that field queries also test, and the synthetic-final rule for
 * compiler-generated outer-instance references.
 */
module AccessFlags {

  /** A Java `int` holding a bit-set of access flags. */
  type Flags = bv32

  const ACC_PUBLIC: Flags := 0x0001
  const ACC_PRIVATE: Flags := 0x0002
  const ACC_PROTECTED: Flags := 0x0004
  const ACC_STATIC: Flags := 0x0008
  const ACC_FINAL: Flags := 0x0010
  const ACC_SYNCHRONIZED: Flags := 0x0020
  const ACC_VOLATILE: Flags := 0x0040
  const ACC_NATIVE: Flags := 0x0100

  /** The name prefix javac gives the field that refers to the enclosing instance. */
  const OUTER_THIS_PREFIX: string := "this$"

  /** True when `flags` has any bit of `flag` set. */
  predicate Has(flags: Flags, flag: Flags) {
    flags & flag != 0
  }

  /** `s.startsWith(prefix)` */
  predicate StartsWith(s: string, prefix: string) {
    |prefix| <= |s| && s[..|prefix|] == prefix
  }

  predicate IsOuterThisName(fieldName: string) {
    StartsWith(fieldName, OUTER_THIS_PREFIX)
  }

  /**
   * The flags a field descriptor keeps: the raw flags, with FINAL forced on
   * for an outer-instance reference. No bit is cleared and no bit other than
   * FINAL is added.
   */
  function AdjustedFlags(fieldName: string, raw: Flags): (r: Flags)
    ensures r & raw == raw
    ensures r & !ACC_FINAL == raw & !ACC_FINAL
    ensures Has(r, ACC_FINAL) <==> Has(raw, ACC_FINAL) || IsOuterThisName(fieldName)
  {
    if IsOuterThisName(fieldName) then raw | ACC_FINAL else raw
  }

  /** Every single-bit query other than FINAL reads the same on the raw and the adjusted flags. */
  lemma AdjustedKeepsOtherBits(fieldName: string, raw: Flags, flag: Flags)
    requires flag & ACC_FINAL == 0
    ensures Has(AdjustedFlags(fieldName, raw), flag) <==> Has(raw, flag)
  {
    if IsOuterThisName(fieldName) {
      SettingFinalKeepsOtherBits(raw, flag);
    }
  }

  lemma SettingFinalKeepsOtherBits(raw: Flags, flag: Flags)
    requires flag & ACC_FINAL == 0
    ensures (raw | ACC_FINAL) & flag == raw & flag
  {
  }
}
