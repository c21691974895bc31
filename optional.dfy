/** An optional value: a JavaScript field that may be `undefined`, or `null` from
    a helper; and the list of the values present in a list of optional values,
    which is what a loop that pushes only some of its results builds. */
module Optional {
  datatype Option<+T> = None | Some(value: T)

  /** The values present in `xs`, in order. */
  function Present<T>(xs: seq<Option<T>>): seq<T> {
    if xs == [] then []
    else Present(xs[..|xs| - 1]) + (if xs[|xs| - 1].Some? then [xs[|xs| - 1].value] else [])
  }

  /** Extending a prefix by one position adds that position's value, if any. */
  lemma PresentNext<T>(xs: seq<Option<T>>, i: nat)
    requires i < |xs|
    ensures Present(xs[..i + 1]) == Present(xs[..i]) + (if xs[i].Some? then [xs[i].value] else [])
  {
    assert xs[..i + 1][..i] == xs[..i];
  }

  /** The values present before position `i` come first. */
  lemma {:induction false} PresentPrefix<T>(xs: seq<Option<T>>, i: nat)
    requires i <= |xs|
    ensures Present(xs[..i]) <= Present(xs)
    decreases |xs| - i
  {
    if i < |xs| {
      var init := xs[..|xs| - 1];
      assert init[..i] == xs[..i];
      PresentPrefix(init, i);
    } else {
      assert xs[..i] == xs;
    }
  }

  /** The value at position `i` is the one that follows the values present
      before `i`. */
  lemma PresentAt<T>(xs: seq<Option<T>>, i: nat)
    requires i < |xs| && xs[i].Some?
    ensures |Present(xs[..i])| < |Present(xs)|
    ensures Present(xs)[|Present(xs[..i])|] == xs[i].value
  {
    assert xs[..i + 1][..i] == xs[..i];
    assert Present(xs[..i + 1]) == Present(xs[..i]) + [xs[i].value];
    PresentPrefix(xs, i + 1);
  }

  /** Present values keep their order: a later present value comes later. */
  lemma PresentOrder<T>(xs: seq<Option<T>>, i: nat, j: nat)
    requires i < j <= |xs| && xs[i].Some?
    ensures |Present(xs[..i])| < |Present(xs[..j])|
  {
    assert xs[..j][..i] == xs[..i];
    PresentAt(xs[..j], i);
  }

  /** A value is in the list exactly when some position holds it. */
  lemma {:induction false} PresentMembers<T>(xs: seq<Option<T>>, x: T)
    ensures x in Present(xs) <==> exists i :: 0 <= i < |xs| && xs[i] == Some(x)
  {
    if xs != [] {
      var init := xs[..|xs| - 1];
      PresentMembers(init, x);
      if exists i :: 0 <= i < |init| && init[i] == Some(x) {
        var i :| 0 <= i < |init| && init[i] == Some(x);
        assert xs[i] == Some(x);
      }
      if exists i :: 0 <= i < |xs| && xs[i] == Some(x) {
        var i :| 0 <= i < |xs| && xs[i] == Some(x);
        if i < |init| {
          assert init[i] == Some(x);
        }
      }
    }
  }
}
