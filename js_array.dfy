/**
 * `Array.from(new Set(xs))`, which both service-order scripts apply to the
 * RTC values before listing them: a JavaScript `Set` keeps each value once,
 * at the place it was first inserted.
 */
module JsArray {

  /** No value occurs twice. */
  predicate NoRepeats(xs: seq<string>)
  {
    forall i, j | 0 <= i < j < |xs| :: xs[i] != xs[j]
  }

  /** The first occurrence of each value, in the order of the input. */
  function Dedup(xs: seq<string>): (r: seq<string>)
    ensures NoRepeats(r)
    ensures forall x :: x in r <==> x in xs
    ensures |r| <= |xs|
  {
    if xs == [] then []
    else
      var prev := Dedup(xs[..|xs| - 1]);
      var x := xs[|xs| - 1];
      assert xs == xs[..|xs| - 1] + [x];
      if x in prev then prev else prev + [x]
  }

  /** A list without repeats is its own set. */
  lemma {:induction false} DedupOfNoRepeats(xs: seq<string>)
    requires NoRepeats(xs)
    ensures Dedup(xs) == xs
  {
    if xs != [] {
      var init := xs[..|xs| - 1];
      DedupOfNoRepeats(init);
      assert xs[|xs| - 1] !in init;
      assert xs == init + [xs[|xs| - 1]];
    }
  }

  /** Building the set twice changes nothing. */
  lemma DedupIdempotent(xs: seq<string>)
    ensures Dedup(Dedup(xs)) == Dedup(xs)
  {
    DedupOfNoRepeats(Dedup(xs));
  }

  /** Later values never reorder earlier ones: the set of a prefix is a prefix of the set. */
  lemma {:induction false} DedupKeepsFirstOrder(xs: seq<string>, k: nat)
    requires k <= |xs|
    ensures Dedup(xs[..k]) <= Dedup(xs)
  {
    if k < |xs| {
      var init := xs[..|xs| - 1];
      assert xs[..k] == init[..k];
      DedupKeepsFirstOrder(init, k);
    } else {
      assert xs[..k] == xs;
    }
  }
}
