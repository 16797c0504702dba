/** The grammars names are written in. A string stands for its bytes. */
module Names {

  const IDENTIFIER_MAX_BYTES: nat := 255

  predicate LetterOrDigit(c: char) {
    'A' <= c <= 'Z' || 'a' <= c <= 'z' || '0' <= c <= '9'
  }

  /** A letter or digit, then letters, digits, underscores and hyphens, 255 bytes in all at most. */
  predicate IsIdentifier(v: string) {
    && 0 < |v| <= 255
    && LetterOrDigit(v[0])
    && forall c | c in v :: LetterOrDigit(c) || c == '_' || c == '-'
  }

  predicate InSegment(c: char) {
    c > ' ' && c != '\U{7f}' && c != '/' && c != '\\' && c != '?' && c != '#' && c != '[' && c != ']'
  }

  /** What travels as one path segment: no whitespace, separator or URI delimiter, and no directory's name. */
  predicate IsSegment(v: string) {
    && v != "" && v != "." && v != ".."
    && forall c | c in v :: InSegment(c)
  }

  method Identifier(v: string) returns (ok: bool)
    ensures ok <==> IsIdentifier(v)
  {
    if v == "" || |v| > IDENTIFIER_MAX_BYTES {
      return false;
    }
    for i := 0 to |v|
      invariant i > 0 ==> LetterOrDigit(v[0])
      invariant forall c | c in v[..i] :: LetterOrDigit(c) || c == '_' || c == '-'
    {
      var c := v[i];
      var ok := ('A' <= c && c <= 'Z') || ('a' <= c && c <= 'z') || ('0' <= c && c <= '9');
      if i > 0 {
        ok := ok || c == '_' || c == '-';
      }
      if !ok {
        assert c in v;
        return false;
      }
    }
    return true;
  }

  method Segment(v: string) returns (ok: bool)
    ensures ok <==> IsSegment(v)
  {
    if v == "" || v == "." || v == ".." {
      return false;
    }
    for i := 0 to |v|
      invariant forall k | 0 <= k < i :: InSegment(v[k])
    {
      var c := v[i];
      if c <= ' ' || c == '\U{7f}' || c == '/' || c == '\\' || c == '?' || c == '#' || c == '[' || c == ']' {
        assert v[i] in v;
        return false;
      }
    }
    return true;
  }

  lemma NoSlash(v: string)
    requires IsSegment(v) || IsIdentifier(v)
    ensures '/' !in v
  {}
}
