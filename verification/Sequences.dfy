/** Replacing a stretch of a sequence */
module Sequences {

  /** `s` with its elements `lo` to `hi - 1` replaced by `mid` */
  function Splice<T>(s: seq<T>, lo: nat, hi: nat, mid: seq<T>): seq<T>
    requires lo <= hi <= |s|
  {
    s[..lo] + mid + s[hi..]
  }
}
