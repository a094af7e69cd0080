/** String helpers shared by the models: trimming and ASCII case folding. */
module Text {

  datatype Option<+T> = None | Some(value: T)

  predicate IsSpace(c: char) {
    c in {' ', '\t', '\n', '\r', '\U{0b}', '\U{0c}'}
  }

  function TrimStart(s: string): string {
    if s != "" && IsSpace(s[0]) then TrimStart(s[1..]) else s
  }

  function TrimEnd(s: string): string {
    if s != "" && IsSpace(s[|s| - 1]) then TrimEnd(s[..|s| - 1]) else s
  }

  function Trim(s: string): string {
    TrimEnd(TrimStart(s))
  }

  function LowerChar(c: char): char {
    if 'A' <= c <= 'Z' then (c as int + 32) as char else c
  }

  function Lower(s: string): string {
    seq(|s|, i requires 0 <= i < |s| => LowerChar(s[i]))
  }

  /** `String(s).trim().toLowerCase()` / `s.strip().lower()`. */
  function Normalized(s: string): string {
    Lower(Trim(s))
  }

  /** No blank at either end. */
  predicate Solid(s: string) {
    s != "" ==> !IsSpace(s[0]) && !IsSpace(s[|s| - 1])
  }

  /** A prefix of blanks disappears; what follows is trimmed at its end only. */
  lemma {:induction false} TrimIndented(blanks: string, s: string)
    requires forall c :: c in blanks ==> IsSpace(c)
    requires s != "" && Solid(s)
    ensures Trim(blanks + s) == s
  {
    if blanks == "" {
      assert blanks + s == s;
    } else {
      assert (blanks + s)[0] == blanks[0] && (blanks + s)[1..] == blanks[1..] + s;
      TrimIndented(blanks[1..], s);
    }
  }
}
