/** What several components speak of: optional values, listings without repetition, variable names. */
module Shared {

  datatype Option<T> = None | Some(value: T)

  ghost predicate Distinct<T>(s: seq<T>) {
    forall i, j :: 0 <= i < j < |s| ==> s[i] != s[j]
  }

  /** An order in which a Go `range` over the map may visit it. */
  ghost predicate IsOrder<V>(order: seq<string>, table: map<string, V>) {
    && Distinct(order)
    && (forall k :: k in order <==> k in table)
  }

  predicate IsKeyStart(c: char) {
    'A' <= c <= 'Z' || 'a' <= c <= 'z' || c == '_'
  }

  predicate IsKeyChar(c: char) {
    IsKeyStart(c) || '0' <= c <= '9'
  }

  /** The name of an environment variable: [A-Za-z_][A-Za-z0-9_]* */
  predicate ValidKey(k: string) {
    k != [] && IsKeyStart(k[0]) && forall i :: 0 <= i < |k| ==> IsKeyChar(k[i])
  }
}
