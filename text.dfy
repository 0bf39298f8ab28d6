/** The few operations on Python strings that the HTTP handlers and `process_date` rely on. */
module Text {

  /** The characters for which Python's `str.isspace()` holds, i.e. those `str.strip()` removes. */
  predicate IsSpace(c: char) {
    || c == ' '
    || '\t' <= c <= '\r'
    || '\U{1c}' <= c <= '\U{1f}'
    || c == '\U{85}' || c == '\U{a0}' || c == '\U{1680}'
    || '\U{2000}' <= c <= '\U{200a}'
    || c == '\U{2028}' || c == '\U{2029}' || c == '\U{202f}' || c == '\U{205f}' || c == '\U{3000}'
  }

  /** `not s.strip()`: the string is empty or made of whitespace only. */
  predicate IsBlank(s: string) {
    forall i :: 0 <= i < |s| ==> IsSpace(s[i])
  }

  /** Lower-cases ASCII letters and leaves every other character alone. */
  function LowerChar(c: char): (r: char)
    ensures 'A' <= c <= 'Z' ==> 'a' <= r <= 'z' && r as int - c as int == 32
    ensures !('A' <= c <= 'Z') ==> r == c
  {
    if 'A' <= c <= 'Z' then (c as int + 32) as char else c
  }

  /**
   * `s.lower()`, restricted to ASCII letters. The fixed words compared against a lowered
   * string here (".pdf", "null", "none", "string") consist of ASCII letters and a dot; no other
   * character lowers to one of them, so the restriction does not change any comparison.
   */
  function Lower(s: string): (r: string)
    ensures |r| == |s|
    ensures forall i :: 0 <= i < |s| ==> r[i] == LowerChar(s[i])
  {
    seq(|s|, i requires 0 <= i < |s| => LowerChar(s[i]))
  }

  /** `name.lower().endswith('.pdf')`. */
  predicate EndsWithPdf(name: string) {
    |name| >= 4 && Lower(name[|name| - 4..]) == ".pdf"
  }

  lemma {:induction false} EndsWithPdfExamples()
    ensures EndsWithPdf("notes.PDF") && EndsWithPdf("a.Pdf") && EndsWithPdf(".pdf")
    ensures !EndsWithPdf("notes.pdf.txt") && !EndsWithPdf("pdf") && !EndsWithPdf("")
  {
    assert Lower(".PDF") == ".pdf";
    assert Lower(".Pdf") == ".pdf";
    assert Lower(".pdf") == ".pdf";
    assert Lower(".txt")[1] == 't';
  }
}
