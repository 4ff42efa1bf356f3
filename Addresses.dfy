/**
 * Builder addresses: `_normalize_address`, the known-label table
 * `BUILDER_ADDRESS_LABELS` and `_label_builder_address`.
 */
module Addresses {
  import opened Wrappers

  /** The builder whose fills the ledger attributes (`TARGET_BUILDER_ADDRESS`). */
  const TargetBuilderAddress: string := "0x2868fc0d9786a740b491577a43502259efa78a39"

  /** Known builder addresses and their human-readable names; keys are lowercase. */
  const BuilderAddressLabels: map<string, string> :=
    map["0x2868fc0d9786a740b491577a43502259efa78a39" := "Insilico"]

  /** `str.lower()` on one character (ASCII letters only). */
  function LowerChar(c: char): char {
    if 'A' <= c <= 'Z' then (c as int + 32) as char else c
  }

  predicate IsLower(s: string) {
    forall i :: 0 <= i < |s| ==> !('A' <= s[i] <= 'Z')
  }

  /** `str.lower()`: the same string with every upper-case letter lowered. */
  function Lower(s: string): (r: string)
    ensures |r| == |s| && IsLower(r)
    ensures forall i :: 0 <= i < |s| ==> r[i] == LowerChar(s[i])
  {
    seq(|s|, i requires 0 <= i < |s| => LowerChar(s[i]))
  }

  lemma LowerOfLower(s: string)
    requires IsLower(s)
    ensures Lower(s) == s
  {
  }

  /**
   * Python's `a or b` on optional strings: `a` unless it is `None` or empty.
   */
  function OrElse(a: Option<string>, b: Option<string>): (r: Option<string>)
    ensures r == a || r == b
    ensures a.Some? && a.value != "" ==> r == a
    ensures !(a.Some? && a.value != "") ==> r == b
  {
    if a.Some? && a.value != "" then a else b
  }

  /**
   * `_normalize_address`: absent or empty becomes `None`, anything else is
   * lowercased.
   */
  function NormalizeAddress(addr: Option<string>): (r: Option<string>)
    ensures r.None? <==> addr.None? || addr.value == ""
    ensures r.Some? ==> r.value != "" && IsLower(r.value)
    ensures r.Some? ==> |r.value| == |addr.value|
    ensures r.Some? ==> forall i :: 0 <= i < |addr.value| ==> r.value[i] == LowerChar(addr.value[i])
  {
    if addr.None? || addr.value == "" then None else Some(Lower(addr.value))
  }

  /** Normalising twice is normalising once. */
  lemma NormalizeIdempotent(addr: Option<string>)
    ensures NormalizeAddress(NormalizeAddress(addr)) == NormalizeAddress(addr)
  {
    if addr.Some? && addr.value != "" {
      LowerOfLower(Lower(addr.value));
    }
  }

  /**
   * `_label_builder_address`: the known name of the normalised address, or the
   * normalised address itself; `None` when there is no address.
   */
  function LabelBuilderAddress(addr: Option<string>): (r: Option<string>)
    ensures r.None? <==> NormalizeAddress(addr).None?
    ensures r.Some? && NormalizeAddress(addr).value in BuilderAddressLabels ==>
      r.value == BuilderAddressLabels[NormalizeAddress(addr).value]
    ensures r.Some? && NormalizeAddress(addr).value !in BuilderAddressLabels ==>
      r == NormalizeAddress(addr)
  {
    var norm := NormalizeAddress(addr);
    if norm.None? then None
    else if norm.value in BuilderAddressLabels then Some(BuilderAddressLabels[norm.value])
    else norm
  }

  /** The target address is already normalised, and the label table names it. */
  lemma TargetIsLabelled()
    ensures NormalizeAddress(Some(TargetBuilderAddress)) == Some(TargetBuilderAddress)
    ensures LabelBuilderAddress(Some(TargetBuilderAddress)) == Some("Insilico")
  {
    assert IsLower(TargetBuilderAddress);
    LowerOfLower(TargetBuilderAddress);
  }
}
