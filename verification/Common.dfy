/** Small vocabulary shared by the models of the core classes. */
module Common {

  datatype Option<+T> = None | Some(value: T)

  /** Network callsigns are plain strings; the empty one is "no callsign". */
  type Callsign = string

  predicate IsUpperOrDigit(c: char) {
    'A' <= c <= 'Z' || '0' <= c <= '9'
  }

  /** The syntactic test an aircraft callsign has to pass before it is announced. */
  predicate IsValidAircraftCallsign(cs: Callsign) {
    2 <= |cs| <= 10 && forall i :: 0 <= i < |cs| ==> IsUpperOrDigit(cs[i])
  }

  ghost predicate NoDuplicates<T>(s: seq<T>) {
    forall i, j :: 0 <= i < j < |s| ==> s[i] != s[j]
  }

  /** `order` lists every element of `elements` exactly once. */
  ghost predicate Enumerates<T(!new)>(order: seq<T>, elements: set<T>) {
    NoDuplicates(order) && forall x :: x in order <==> x in elements
  }

  lemma EnumeratesOneMore<T(!new)>(order: seq<T>, elements: set<T>, x: T)
    requires Enumerates(order, elements) && x !in elements
    ensures Enumerates(order + [x], elements + {x})
  {
    assert forall i :: 0 <= i < |order| ==> order[i] in order;
  }
}
