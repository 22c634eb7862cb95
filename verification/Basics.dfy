/** Small vocabulary that the components share. */
module Basics {

  const MICROS := 1_000_000

  datatype Option<+T> = None | Some(value: T)

  function Get<T>(m: map<string, T>, k: string): Option<T> {
    if k in m then Some(m[k]) else None
  }

  function SetOf(names: seq<string>): set<string> {
    set n | n in names
  }

  lemma DropOneMore<T>(m: map<string, T>, gone: set<string>, k: string)
    ensures m - gone - {k} == m - (gone + {k})
  {
  }
}
