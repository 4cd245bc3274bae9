/** Types shared by the launch components and pages. */
module Common {

  /** A value that may be absent: an `undefined` in the source, or a
      foreign call (date parsing, locale formatting) that failed. */
  datatype Option<T> = None | Some(value: T)

  /** The `status` of a launch record: 'upcoming' | 'success' | 'failure'. */
  datatype LaunchStatus = Upcoming | Success | Failure

  /** `a` is `b` with some elements left out, the rest in their order: what
      `Array.prototype.filter` keeps. */
  predicate IsSubsequence<T(==)>(a: seq<T>, b: seq<T>)
    decreases |b|
  {
    a == [] ||
    (b != [] && ((a[0] == b[0] && IsSubsequence(a[1..], b[1..])) || IsSubsequence(a, b[1..])))
  }
}
