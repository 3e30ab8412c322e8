/** Byte values shared by the modules that work on raw bytes. */
module Bytes {
  newtype byte = x: int | 0 <= x < 256
}

module Wrappers {
  datatype Option<+T> = None | Some(value: T)
}

/** Searching in text. */
module Text {
  /** Index of the first `c`, or the length when there is none. */
  function IndexOf(s: string, c: char): (i: nat)
    ensures i <= |s|
    ensures i < |s| ==> s[i] == c
    ensures forall k :: 0 <= k < i ==> s[k] != c
  {
    if s == "" || s[0] == c then 0 else 1 + IndexOf(s[1..], c)
  }
}
