/**
 * Optional values and JavaScript truthiness as the feed code relies on them.
 *
 * In the TypeScript sources an optional string is `undefined`, `null` or a
 * string, and the `||` operator treats the empty string exactly like a missing
 * value. `Option<string>` stands for all three, and `Truthy` is the test that
 * `||` and `if (x)` perform on it.
 */
module Values {

  datatype Option<+T> = None | Some(value: T)

  /** JavaScript truthiness of an optional string: absent and "" are falsy. */
  predicate Truthy(o: Option<string>) {
    o.Some? && o.value != ""
  }

  /** `a || b` on optional strings. */
  function Or(a: Option<string>, b: Option<string>): Option<string> {
    if Truthy(a) then a else b
  }

  /** `a || d` where the default `d` is a string literal. */
  function OrDefault(a: Option<string>, d: string): string {
    if Truthy(a) then a.value else d
  }

  /**
   * Reference definition of a first-hit fallback chain: the first truthy
   * candidate, or None when every candidate is absent or empty.
   */
  function FirstTruthy(xs: seq<Option<string>>): (r: Option<string>)
    ensures r == None || Truthy(r)
    ensures Truthy(r) ==> r in xs
    ensures r == None <==> forall k :: 0 <= k < |xs| ==> !Truthy(xs[k])
    ensures Truthy(r) ==> exists k :: 0 <= k < |xs| && xs[k] == r && forall j :: 0 <= j < k ==> !Truthy(xs[j])
  {
    if xs == [] then None
    else if Truthy(xs[0]) then xs[0]
    else
      var rest := FirstTruthy(xs[1..]);
      assert forall k :: 1 <= k < |xs| ==> xs[k] == xs[1..][k - 1];
      rest
  }

  /** `s` holds `p` starting at index `i`. */
  predicate At(s: string, i: int, p: string) {
    0 <= i && i + |p| <= |s| && s[i..i + |p|] == p
  }

  /** `s.startsWith(p)` */
  predicate StartsWith(s: string, p: string) {
    |p| <= |s| && s[..|p|] == p
  }

  /** `a` is obtained from `b` by deleting elements, keeping their order. */
  ghost predicate Subsequence<T>(a: seq<T>, b: seq<T>)
    decreases |b|
  {
    if a == [] then true
    else if b == [] then false
    else if a[0] == b[0] then Subsequence(a[1..], b[1..])
    else Subsequence(a, b[1..])
  }
}
