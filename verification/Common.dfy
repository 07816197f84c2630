/**
 Shared helpers: optional values, and sequences used as histories with the newest element last.
 */
module Common {

  datatype Option<+T> = None | Some(value: T)

  ghost predicate Distinct<T>(s: seq<T>) {
    forall i, j :: 0 <= i < j < |s| ==> s[i] != s[j]
  }

  /** A history without its newest element. */
  function Before<T>(es: seq<T>): seq<T>
    requires es != []
  {
    es[..|es| - 1]
  }

  /** The newest element of a history. */
  function Last<T>(es: seq<T>): T
    requires es != []
  {
    es[|es| - 1]
  }
}
