/** The string helper of Model/StringExtensions.cs. */
module StringExtensions {
  import opened Wrappers

  function Min(a: int, b: int): int { if a <= b then a else b }

  /**
   * Truncates a string to at most `maxLength` characters. A null (None) or
   * empty input, or a negative limit, gives the input back unchanged.
   */
  function TrimToMaxLength(input: Option<string>, maxLength: int): (r: Option<string>)
    // null stays null, a string stays a string
    ensures r.None? <==> input.None?
    // null, empty input and a negative limit leave the input alone
    ensures input.None? || input.value == "" || maxLength < 0 ==> r == input
    // the result is always a prefix of the input
    ensures r.Some? ==> r.value <= input.value
    // for a non-empty input and a usable limit, the length is the smaller of the two
    ensures input.Some? && input.value != "" && maxLength >= 0 ==>
              |r.value| == Min(|input.value|, maxLength)
    // input already within the limit is returned unchanged
    ensures input.Some? && |input.value| <= maxLength ==> r == input
  {
    if input.None? || input.value == "" || maxLength < 0 then input
    else if |input.value| <= maxLength then input
    else Some(input.value[..maxLength])
  }

  /** Trimming twice with the same limit is the same as trimming once. */
  lemma TrimIsIdempotent(input: Option<string>, maxLength: int)
    ensures TrimToMaxLength(TrimToMaxLength(input, maxLength), maxLength)
         == TrimToMaxLength(input, maxLength)
  {
  }
}
