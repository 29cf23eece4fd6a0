/** Resource lists and the quota arithmetic the program borrows from k8s.io/apiserver.
    A quantity has arbitrary precision, so it is an `int`; a nil list is the empty map. */
module ResourceLists {
  type ResourceList = map<string, int>

  /** The amount of resource `k`; a missing key counts as zero. */
  function Get(a: ResourceList, k: string): int {
    if k in a then a[k] else 0
  }

  function Add(a: ResourceList, b: ResourceList): ResourceList {
    map k | k in a.Keys + b.Keys :: Get(a, k) + Get(b, k)
  }

  /** Does not clamp at zero. */
  function Subtract(a: ResourceList, b: ResourceList): ResourceList {
    map k | k in a.Keys + b.Keys :: Get(a, k) - Get(b, k)
  }

  /** The keys on which `a` is above `hard`; only keys present in both are compared. */
  function Exceeded(a: ResourceList, hard: ResourceList): set<string> {
    set k | k in hard && k in a && a[k] > hard[k]
  }

  predicate LessThanOrEqual(a: ResourceList, hard: ResourceList) {
    Exceeded(a, hard) == {}
  }

  function Mask(a: ResourceList, names: set<string>): ResourceList {
    map k | k in a && k in names :: a[k]
  }

  /** Equal on every resource, whatever the key sets. */
  ghost predicate Agree(a: ResourceList, b: ResourceList) {
    forall k :: Get(a, k) == Get(b, k)
  }

  /** Pointwise at most, a missing key counting as zero. */
  ghost predicate Below(a: ResourceList, b: ResourceList) {
    forall k :: Get(a, k) <= Get(b, k)
  }

  predicate NonNegative(a: ResourceList) {
    forall k | k in a :: a[k] >= 0
  }
}
