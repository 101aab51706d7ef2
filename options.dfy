/** Optional values, standing in for JavaScript's `null` / `undefined`. */
module Options {

  datatype Option<T> = None | Some(value: T)

  /** The first of two alternatives that succeeds: how a regular expression
      tries one branch and falls back to the next. */
  function OrElse<T>(a: Option<T>, b: Option<T>): (r: Option<T>)
    ensures a.Some? ==> r == a
    ensures a.None? ==> r == b
  {
    if a.Some? then a else b
  }

  /** The value, or d when there is none: a spread that keeps a field an
      object does not set. */
  function ValueOr<T>(a: Option<T>, d: T): T {
    if a.Some? then a.value else d
  }

  /** The index of the first present value at or after k: a loop over
      alternatives that stops at the first that gives something. */
  function FirstSome<T>(xs: seq<Option<T>>, k: nat): (r: Option<nat>)
    requires k <= |xs|
    ensures r.Some? ==> k <= r.value < |xs| && xs[r.value].Some?
    ensures forall j :: k <= j < |xs| && (r.None? || j < r.value) ==> xs[j].None?
    decreases |xs| - k
  {
    if k == |xs| then None
    else if xs[k].Some? then Some(k)
    else FirstSome(xs, k + 1)
  }

  /** The values f gives for the elements of xs, in order, skipping the
      elements it gives none for: what a loop that pushes each result it
      finds builds. */
  function Collect<A, B>(xs: seq<A>, f: A -> Option<B>): (r: seq<B>)
    ensures |r| <= |xs|
  {
    if xs == [] then []
    else
      var last := f(xs[|xs| - 1]);
      Collect(xs[..|xs| - 1], f) + (if last.Some? then [last.value] else [])
  }

  lemma CollectPrefix<A, B>(xs: seq<A>, f: A -> Option<B>, n: nat)
    requires n < |xs|
    ensures Collect(xs[..n + 1], f) == Collect(xs[..n], f) + (if f(xs[n]).Some? then [f(xs[n]).value] else [])
  {
    assert xs[..n + 1][..n] == xs[..n];
  }

  /** A value is collected exactly when f gives it for some element. */
  lemma {:induction false} CollectMembers<A, B>(xs: seq<A>, f: A -> Option<B>, t: B)
    ensures t in Collect(xs, f) <==> exists j :: 0 <= j < |xs| && f(xs[j]) == Some(t)
    decreases |xs|
  {
    if xs != [] {
      var n := |xs| - 1;
      var init := xs[..n];
      CollectMembers(init, f, t);
      if exists j :: 0 <= j < |xs| && f(xs[j]) == Some(t) {
        var j :| 0 <= j < |xs| && f(xs[j]) == Some(t);
        if j < n {
          assert init[j] == xs[j];
        }
      }
      if exists j :: 0 <= j < |init| && f(init[j]) == Some(t) {
        var j :| 0 <= j < |init| && f(init[j]) == Some(t);
        assert xs[j] == init[j];
      }
    }
  }
}
