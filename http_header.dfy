/** What the HTTP library accepts as a header value. */
module HttpHeader {

  /** `HeaderValue::from_str` accepts a byte when it is a tab, or at least
      32 and not 127. Every byte of a non-ASCII character's UTF-8 form is
      at least 128, so the same test applies to characters. */
  predicate IsHeaderChar(c: char) {
    c == '\t' || (32 <= c as int && c as int != 127)
  }

  predicate ValidHeaderValue(s: string) {
    forall i :: 0 <= i < |s| ==> IsHeaderChar(s[i])
  }

  /** A value built from valid pieces is valid, and a piece that is
      invalid makes the whole value invalid. */
  lemma ValidConcat(a: string, b: string)
    ensures ValidHeaderValue(a + b) <==> ValidHeaderValue(a) && ValidHeaderValue(b)
  {
    if ValidHeaderValue(a + b) {
      forall i | 0 <= i < |a|
        ensures IsHeaderChar(a[i])
      {
        assert a[i] == (a + b)[i];
      }
      forall i | 0 <= i < |b|
        ensures IsHeaderChar(b[i])
      {
        assert b[i] == (a + b)[|a| + i];
      }
    } else if ValidHeaderValue(a) && ValidHeaderValue(b) {
      forall i | 0 <= i < |a + b|
        ensures IsHeaderChar((a + b)[i])
      {
        if i >= |a| {
          assert (a + b)[i] == b[i - |a|];
        }
      }
    }
  }

  /** A fixed valid prefix (an authorization scheme, say) followed by a
      caller's value is accepted exactly when that value is. */
  lemma ValidAfterPrefix(prefix: string, value: string)
    requires ValidHeaderValue(prefix)
    ensures ValidHeaderValue(prefix + value) <==> ValidHeaderValue(value)
  {
    ValidConcat(prefix, value);
  }
}
