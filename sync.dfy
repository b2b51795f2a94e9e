/**
 * The merge-on-login rule of `App.tsx`: what a remote cart or wishlist,
 * fetched when a user signs in, does to the local one.
 */
module Sync {
  import opened Types

  /**
   * The pull handler, for the cart and the wishlist alike: the remote
   * collection replaces the local one exactly when the fetch succeeded
   * with a non-empty list and the local one is empty; in every other
   * case, a failed fetch included, the local collection stays.
   */
  function MergeOnLogin<T>(local: seq<T>, fetched: Fetched<seq<T>>): (r: seq<T>)
    ensures r == local || (fetched.Received? && fetched.data.Some? && r == fetched.data.value)
    ensures r != local <==> (local == [] && fetched.Received? && fetched.data.Some? && fetched.data.value != [])
    ensures (local == [] && fetched.Received? && fetched.data.Some?) ==> r == fetched.data.value
  {
    match fetched
    case Received(Some(remote)) => if |remote| > 0 && |local| == 0 then remote else local
    case _ => local
  }

  /** Applying the same pull result twice is the same as applying it once. */
  lemma MergeIdempotent<T>(local: seq<T>, fetched: Fetched<seq<T>>)
    ensures MergeOnLogin(MergeOnLogin(local, fetched), fetched) == MergeOnLogin(local, fetched)
  {
  }

  /** A local collection that has entries is never touched by a pull, whatever it returns. */
  lemma LocalNonEmptyWins<T>(local: seq<T>, fetched: Fetched<seq<T>>)
    requires local != []
    ensures MergeOnLogin(local, fetched) == local
  {
  }

  /** The merge never loses entries: its result is empty only when both sides were. */
  lemma MergeEmptyOnlyIfBothEmpty<T>(local: seq<T>, fetched: Fetched<seq<T>>)
    ensures MergeOnLogin(local, fetched) == [] <==>
      (local == [] && !(fetched.Received? && fetched.data.Some? && fetched.data.value != []))
  {
  }
}
