/** The detail pages' lookup `LIST.find(x => x.id === id) || LIST[0]`, used for gigs, courses and
    forum posts alike. */
module Lookup {
  import opened Arrays

  /** The first element whose id is `id`; the first element of the list when none has it. */
  function FindByIdOrFirst<T(!new)>(list: seq<T>, idOf: T -> string, id: string): (r: T)
    requires |list| > 0
    ensures r in list
    ensures (exists i :: 0 <= i < |list| && idOf(list[i]) == id) ==>
      exists i :: 0 <= i < |list| && r == list[i] && idOf(r) == id && forall j :: 0 <= j < i ==> idOf(list[j]) != id
    ensures (forall i :: 0 <= i < |list| ==> idOf(list[i]) != id) ==> r == list[0]
  {
    match Find(list, x => idOf(x) == id)
    case Some(x) => x
    case None => list[0]
  }

  predicate DistinctIds<T>(list: seq<T>, idOf: T -> string)
  {
    forall i, j :: 0 <= i < j < |list| ==> idOf(list[i]) != idOf(list[j])
  }

  /** When ids are distinct, looking up an element's own id gives back that element. */
  lemma LookupOwnId<T(!new)>(list: seq<T>, idOf: T -> string, i: nat)
    requires i < |list| && DistinctIds(list, idOf)
    ensures FindByIdOrFirst(list, idOf, idOf(list[i])) == list[i]
  {
    var r := FindByIdOrFirst(list, idOf, idOf(list[i]));
    var k :| 0 <= k < |list| && r == list[k] && idOf(r) == idOf(list[i]) && forall j :: 0 <= j < k ==> idOf(list[j]) != idOf(list[i]);
  }
}
