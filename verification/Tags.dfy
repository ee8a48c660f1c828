/** Standard tag bytes, and the two tag classes that decide where spaces and pruning matter. */
module Tags {
  import opened LittleEndian

  const BODY: byte := 21
  const BR: byte := 22
  const HR: byte := 61
  const SUMMARY: byte := 111

  /** Links, text-level elements, form fields, line breaks, and text nodes themselves. */
  predicate IsInline(tag: byte) {
    tag in {2, 5, 6, 7, 14, 18, 19, 22, 23, 27, 28, 36, 42, 63, 65, 66, 68, 69, 74, 83, 87, 93, 99, 100, 103, 104, 106,
        108,
            110, 112, 118, 122, 126, 129}
  }

  /** Sections, headings, lists, tables, rules and the other elements laid out as blocks. */
  predicate IsBlock(tag: byte) {
    tag in {8, 11, 12, 20, 24, 33, 39, 40, 41, 44, 45, 46, 48, 49, 52, 53, 54, 55, 56, 57, 59, 61, 71, 73, 80, 82, 84,
        88, 91,
            102, 114, 119, 128, 130}
  }

  /** No tag is both, and the body and a summary are neither. */
  lemma ClassesApart(tag: byte)
    ensures !(IsInline(tag) && IsBlock(tag))
    ensures tag == BODY || tag == SUMMARY ==> !IsInline(tag) && !IsBlock(tag)
    ensures tag == HR ==> IsBlock(tag)
  {
  }
}
