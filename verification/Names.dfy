/** The name rule shared by workspace ids, skill names and the secret mount:
    `[A-Za-z0-9_.-]+`, but neither "." nor "..". */
module Names {
  predicate NameChar(c: char) {
    'A' <= c <= 'Z' || 'a' <= c <= 'z' || '0' <= c <= '9' || c == '_' || c == '.' || c == '-'
  }

  predicate NameOk(s: string) {
    s != "" && s != "." && s != ".." && forall c :: c in s ==> NameChar(c)
  }
}
