/** The notification provider: a list of toasts that pages append to and
    that each toast removes itself from by id. Ids are minted from the clock
    and a random number, so they arrive here as parameters. */
module Notifications {
  import opened Wrappers

  datatype Kind = SuccessKind | ErrorKind | InfoKind

  datatype Notification = Notification(id: string, message: string, kind: Kind)

  /** What `useNotification` hands to a page. */
  datatype Context = Context


  /** `showNotification`: one new entry at the end, the earlier ones untouched. */
  function Show(list: seq<Notification>, freshId: string, message: string, kind: Kind): (r: seq<Notification>)
    ensures |r| == |list| + 1
    ensures r[..|list|] == list
    ensures r[|list|] == Notification(freshId, message, kind)
  {
    list + [Notification(freshId, message, kind)]
  }

  /** `removeNotification`: drops every entry carrying `id`, keeping the rest in order. */
  function Remove(list: seq<Notification>, id: string): (r: seq<Notification>)
    ensures |r| <= |list|
    ensures forall n :: n in r <==> n in list && n.id != id
  {
    if list == [] then []
    else if list[0].id == id then Remove(list[1..], id)
    else [list[0]] + Remove(list[1..], id)
  }

  /** Removal works entry by entry, so it keeps the relative order of the survivors. */
  lemma {:induction false} RemoveAppend(a: seq<Notification>, b: seq<Notification>, id: string)
    ensures Remove(a + b, id) == Remove(a, id) + Remove(b, id)
  {
    if a != [] {
      assert (a + b)[1..] == a[1..] + b;
      RemoveAppend(a[1..], b, id);
    } else {
      assert a + b == b;
    }
  }

  /** Removing an id nobody carries changes nothing. */
  lemma {:induction false} RemoveAbsent(list: seq<Notification>, id: string)
    requires forall i | 0 <= i < |list| :: list[i].id != id
    ensures Remove(list, id) == list
  {
    if list != [] {
      RemoveAbsent(list[1..], id);
    }
  }

  /** A second removal of the same id is a no-op. */
  lemma RemoveIdempotent(list: seq<Notification>, id: string)
    ensures Remove(Remove(list, id), id) == Remove(list, id)
  {
  }

  /** Dismissing a freshly shown toast restores the list it was added to. */
  lemma ShowThenRemove(list: seq<Notification>, freshId: string, message: string, kind: Kind)
    requires forall i | 0 <= i < |list| :: list[i].id != freshId
    ensures Remove(Show(list, freshId, message, kind), freshId) == list
  {
    RemoveAppend(list, [Notification(freshId, message, kind)], freshId);
    RemoveAbsent(list, freshId);
    assert Remove([Notification(freshId, message, kind)], freshId) == [];
  }

  /** `useNotification`: a page outside the provider gets an error instead of a context. */
  function UseNotification(provided: Option<Context>): (r: Result<Context, HookError>)
    ensures r.Success? <==> provided.Some?
    ensures r.Failure? ==> r.error.message == "useNotification must be used within a NotificationProvider"
  {
    match provided
    case Some(c) => Success(c)
    case None => Failure(OutsideProvider("useNotification must be used within a NotificationProvider"))
  }
}
