/** Normalisation of the session ids under which thread state is stored. */
module SessionKeys {
  import opened Text

  const LOCAL_PREFIX := "local:"

  predicate StartsWith(s: string, prefix: string) {
    |prefix| <= |s| && s[..|prefix|] == prefix
  }

  /** The id without its `local:` prefix; a blank id gives the empty key. */
  function SessionKey(sessionId: string): string {
    var id := Trim(sessionId);
    if !StartsWith(id, LOCAL_PREFIX) then id
    else
      var bare := id[|LOCAL_PREFIX|..];
      if Trim(bare) != "" && !StartsWith(bare, LOCAL_PREFIX) then bare else id
  }

  predicate IsKeyChar(c: char) {
    'A' <= c <= 'Z' || 'a' <= c <= 'z' || '0' <= c <= '9' || c in {'_', '.', '-'}
  }

  predicate SafeKey(key: string) {
    && key !in {"__proto__", "prototype", "constructor"}
    && 8 <= |key| <= 128
    && forall i :: 0 <= i < |key| ==> IsKeyChar(key[i])
  }

  /** A key that is safe to use as a property name, or "". */
  function ValidKey(sessionId: string): string {
    var key := SessionKey(sessionId);
    if SafeKey(key) then key else ""
  }

  predicate Valid(key: string) {
    key != "" && ValidKey(key) == key
  }

  /** Normalising is a projection: its results are kept as they are. */
  lemma ValidKeyStable(sessionId: string)
    ensures ValidKey(sessionId) != "" ==> Valid(ValidKey(sessionId))
    ensures ValidKey("") == ""
  {
  }
}
