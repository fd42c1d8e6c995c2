/**
 Small notions shared by the other modules.
 */
module Base {

  datatype Option<T> = None | Some(value: T)

  predicate NoDup<T(==)>(s: seq<T>) {
    forall i, j :: 0 <= i < j < |s| ==> s[i] != s[j]
  }

  ghost function Elems<T>(s: seq<T>): set<T> {
    set x | x in s
  }

  lemma ElemsConcat<T>(s: seq<T>, t: seq<T>)
    ensures Elems(s + t) == Elems(s) + Elems(t)
  {
    assert forall x :: x in s + t <==> x in s || x in t;
  }

  function Min(a: int, b: int): int {
    if a < b then a else b
  }

  function Blanks(n: nat): string {
    seq(n, _ => ' ')
  }

  function Joined(parts: seq<string>): string {
    if parts == [] then [] else Joined(parts[..|parts| - 1]) + parts[|parts| - 1]
  }

  lemma JoinedSnoc(parts: seq<string>, part: string)
    ensures Joined([]) == "" && Joined(parts + [part]) == Joined(parts) + part
  {
    assert (parts + [part])[..|parts|] == parts;
  }
}
