/** Singly linked lists by address: the first, the last and the n-th link. */
module Links {
  import opened Octets

  function At(order: seq<nat>, i: nat): (a: Option<nat>) {
    if i < |order| then Some(order[i]) else None
  }

  function First(order: seq<nat>): (a: Option<nat>) {
    At(order, 0)
  }

  function Last(order: seq<nat>): (a: Option<nat>) {
    if order == [] then None else Some(order[|order| - 1])
  }
}
