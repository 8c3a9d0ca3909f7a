/** Lines of openspec/config.yaml as update-switchyard.py reads them. A text is the sequence of
    its lines, split at newlines; no line contains one. */
module RulesLines {
  import opened Common
  import opened PythonStrings

  /** `line.strip()` is not empty. */
  predicate HasContent(s: string) {
    exists i :: 0 <= i < |s| && !IsSpace(s[i])
  }

  /** `line.lstrip()` starts with a hash sign. */
  predicate IsComment(s: string) {
    s != "" && (s[0] == '#' || (IsSpace(s[0]) && IsComment(s[1..])))
  }

  predicate Skipped(line: string) {
    line == "" || IsComment(line)
  }

  predicate KeyStart(c: char) {
    'A' <= c <= 'Z' || 'a' <= c <= 'z' || c == '_'
  }

  predicate KeyChar(c: char) {
    KeyStart(c) || '0' <= c <= '9' || c == '.' || c == '-'
  }

  predicate ValidKey(k: string) {
    k != "" && KeyStart(k[0]) && forall i :: 0 <= i < |k| ==> KeyChar(k[i])
  }

  /** The key and the inline value of a `key:` line, or nothing. */
  function KeyLine(s: string): (r: Option<(string, string)>)
    ensures r.Some? ==> ValidKey(r.value.0) && s == r.value.0 + ":" + r.value.1
  {
    var n := Colon(s);
    if n < |s| && ValidKey(s[..n]) then Some((s[..n], s[n + 1..])) else None
  }

  function Colon(s: string): (n: nat)
    ensures n <= |s| && (n < |s| ==> s[n] == ':') && forall i :: 0 <= i < n ==> s[i] != ':'
  {
    if s == "" || s[0] == ':' then 0 else 1 + Colon(s[1..])
  }

  function ChildKey(line: string): Option<(string, string)> {
    if |line| >= 2 && line[..2] == "  " then KeyLine(line[2..]) else None
  }

  function EntryText(line: string): Option<string> {
    if |line| >= 6 && line[..6] == "    - " then Some(Rstrip(line[6..])) else None
  }

  function KeyText(k: string): string {
    "  " + k + ":"
  }

  function EntryLine(e: string): string {
    "    - " + e
  }

  // ----- what is written reads back

  lemma {:induction false} RstripTwice(s: string)
    ensures Rstrip(Rstrip(s)) == Rstrip(s)
  {
    if s != "" && IsSpace(s[|s| - 1]) {
      RstripTwice(s[..|s| - 1]);
    }
  }

  lemma KeyLineReads(k: string, rest: string)
    requires ValidKey(k)
    ensures KeyLine(k + ":" + rest) == Some((k, rest))
  {
    var s := k + ":" + rest;
    assert s[|k|] == ':';
    assert forall i :: 0 <= i < |k| ==> s[i] == k[i] && KeyChar(k[i]);
    assert Colon(s) == |k|;
    assert s[..|k|] == k && s[|k| + 1..] == rest;
  }

  lemma KeyTextReads(k: string)
    requires ValidKey(k)
    ensures !Skipped(KeyText(k)) && ChildKey(KeyText(k)) == Some((k, ""))
  {
    var line := KeyText(k);
    KeyLineReads(k, "");
    assert k + ":" + "" == k + ":";
    assert line[2..] == k + ":" && line[..2] == "  ";
    assert line[2..][0] == k[0] && line[1..][1..] == line[2..];
    assert !IsComment(line[2..]);
    assert !IsComment(line[1..]);
  }

  lemma EntryLineReads(e: string)
    ensures !Skipped(EntryLine(e)) && ChildKey(EntryLine(e)) == None && EntryText(EntryLine(e)) == Some(Rstrip(e))
  {
    var line := EntryLine(e);
    assert line[..6] == "    - " && line[6..] == e;
    assert line[1..][1..] == line[2..] && line[2..][1..] == line[3..] && line[3..][1..] == line[4..];
    assert line[4..][0] == '-';
    assert !IsComment(line[4..]) && !IsComment(line[3..]) && !IsComment(line[2..]) && !IsComment(line[1..]);
    assert line[2..][0] == ' ';
    assert Colon(line[2..]) > 0 ==> line[2..][..Colon(line[2..])][0] == ' ';
  }
}
