/** Blank strings, as StringUtils.isBlank tells them. */
module Text {

  /** Character.isWhitespace: the Unicode separators that do not forbid a line break, and nine control characters. */
  predicate Whitespace(c: char) {
    || c == ' ' || '\t' <= c <= '\r' || '\U{1C}' <= c <= '\U{1F}'
    || c == '\U{1680}' || '\U{2000}' <= c <= '\U{2006}' || '\U{2008}' <= c <= '\U{200A}'
    || c == '\U{2028}' || c == '\U{2029}' || c == '\U{205F}' || c == '\U{3000}'
  }

  predicate Blank(s: string) {
    forall c :: c in s ==> Whitespace(c)
  }

  /** Among the ASCII characters exactly the blank and nine control characters are whitespace; a no-break space is not. */
  lemma WhitespaceFacts(c: char)
    ensures c <= '~' ==> (Whitespace(c) <==> c == ' ' || c as int in {9, 10, 11, 12, 13, 28, 29, 30, 31})
    ensures c == '\U{A0}' || c == '\U{2007}' || c == '\U{202F}' ==> !Whitespace(c)
  {
  }

  /** Text is blank if and only if all its parts are; the empty text is, and text with a visible ASCII character is not. */
  lemma BlankFacts(a: string, b: string)
    ensures Blank("")
    ensures Blank(a + b) <==> Blank(a) && Blank(b)
    ensures (exists i :: 0 <= i < |a| && '!' <= a[i] <= '~') ==> !Blank(a)
  {
    forall c | c in a || c in b ensures c in a + b {
    }
    if i :| 0 <= i < |a| && '!' <= a[i] <= '~' {
      assert a[i] in a && !Whitespace(a[i]);
    }
  }
}
