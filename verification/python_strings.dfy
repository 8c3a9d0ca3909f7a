/** What Python's strip methods remove, shared by the modules that trim text. */
module PythonStrings {

  predicate IsSpace(c: char) {
    || '\t' <= c <= '\r' || '\U{1c}' <= c <= '\U{20}' || c == '\U{85}' || c == '\U{a0}'
    || c == '\U{1680}' || '\U{2000}' <= c <= '\U{200a}' || c == '\U{2028}' || c == '\U{2029}'
    || c == '\U{202f}' || c == '\U{205f}' || c == '\U{3000}'
  }

  function Rstrip(s: string): (r: string)
    ensures r <= s
  {
    if s == "" then "" else if IsSpace(s[|s| - 1]) then Rstrip(s[..|s| - 1]) else s
  }
}
