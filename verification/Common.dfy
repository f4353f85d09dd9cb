/** Small vocabulary shared by the other modules: optional values, results, the string
    operations the engine relies on, and the dynamic values held by variables. */
module Common {

  datatype Option<+T> = None | Some(value: T)

  datatype Result<+T, +E> = Ok(value: T) | Err(error: E)

  /** A dynamic value.  Numbers are exact; the engine never inspects anything else. */
  datatype Value =
    | Null
    | Flag(b: bool)
    | Number(x: int)
    | Text(s: string)
    | Items(items: seq<Value>)

  type Vars = map<string, Value>

  function Elements(s: seq<string>): set<string> {
    set x | x in s
  }

  predicate StartsWith(s: string, prefix: string) {
    prefix <= s
  }

  /** Two dictionaries agree on a key, be it present or not. */
  predicate SameAt<T(==)>(a: map<string, T>, b: map<string, T>, k: string) {
    (k in a <==> k in b) && (k in a ==> a[k] == b[k])
  }

  /** The characters Python's `str.isspace()` accepts. */
  predicate IsSpace(c: char) {
    || c == ' ' || '\t' <= c <= '\r' || '\U{1c}' <= c <= '\U{1f}' || c == '\U{85}' || c == '\U{a0}'
    || c == '\U{1680}' || '\U{2000}' <= c <= '\U{200a}' || c == '\U{2028}' || c == '\U{2029}'
    || c == '\U{202f}' || c == '\U{205f}' || c == '\U{3000}'
  }

  function TrimLeft(s: string): (r: string)
    ensures |r| <= |s|
    ensures r != "" ==> !IsSpace(r[0])
    ensures s != "" && !IsSpace(s[0]) ==> r == s
  {
    if s == "" || !IsSpace(s[0]) then s else TrimLeft(s[1..])
  }

  function TrimRight(s: string): (r: string)
    ensures r <= s
    ensures r != "" ==> !IsSpace(r[|r| - 1])
    ensures s != "" && !IsSpace(s[|s| - 1]) ==> r == s
  {
    if s == "" || !IsSpace(s[|s| - 1]) then s else TrimRight(s[..|s| - 1])
  }

  /** Python's `str.strip()`. */
  function Strip(s: string): string {
    TrimRight(TrimLeft(s))
  }

  /** An identifier that `Strip` leaves alone. */
  predicate Trimmed(s: string) {
    Strip(s) == s
  }

  lemma StripIsTrimmed(s: string)
    ensures Trimmed(Strip(s))
  {
  }
}
