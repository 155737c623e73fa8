/**
 * The toast list behind the notification provider
 * (contexts/NotificationContext.tsx): `notify` appends an entry, removal
 * filters entries out by id, and `useNotification` refuses to run outside a
 * provider.
 *
 * The random id that `notify` draws is a parameter here, and the removal the
 * provider schedules five seconds later is the same `RemoveNotification`
 * call made explicitly.
 */
module NotificationContext {
  import opened Types
  import opened Lists

  datatype NotificationType = Success | Error | Info

  datatype Notification = Notification(id: string, kind: NotificationType, message: string)

  /** No entry of the list carries the given id. */
  predicate IdUnused(notifications: seq<Notification>, id: string) {
    forall n :: n in notifications ==> n.id != id
  }

  /**
   * `prev.filter(n => n.id !== id)`: every entry with the id is gone, every
   * other entry stays, with its multiplicity and in its order.
   */
  function Without(notifications: seq<Notification>, id: string): (rest: seq<Notification>)
    ensures |rest| <= |notifications|
    ensures IdUnused(rest, id)
    ensures forall n: Notification :: n.id != id ==> multiset(rest)[n] == multiset(notifications)[n]
    ensures IsSubsequence(rest, notifications)
  {
    if notifications == [] then []
    else
      var tail := Without(notifications[1..], id);
      assert notifications == [notifications[0]] + notifications[1..];
      if notifications[0].id == id then
        tail
      else
        var rest := [notifications[0]] + tail;
        assert rest[1..] == tail;
        rest
  }

  /** Removing an id that no entry carries leaves the list as it was. */
  lemma {:induction false} WithoutUnusedId(notifications: seq<Notification>, id: string)
    requires IdUnused(notifications, id)
    ensures Without(notifications, id) == notifications
  {
    if notifications != [] {
      assert notifications[0] in notifications;
      WithoutUnusedId(notifications[1..], id);
      assert notifications == [notifications[0]] + notifications[1..];
    }
  }

  /** Removing the same id twice removes nothing more. */
  lemma WithoutIdempotent(notifications: seq<Notification>, id: string)
    ensures Without(Without(notifications, id), id) == Without(notifications, id)
  {
    WithoutUnusedId(Without(notifications, id), id);
  }

  /** Removal acts on the two halves of a list independently. */
  lemma {:induction false} WithoutAppend(a: seq<Notification>, b: seq<Notification>, id: string)
    ensures Without(a + b, id) == Without(a, id) + Without(b, id)
  {
    if a == [] {
      assert a + b == b;
    } else {
      assert (a + b)[1..] == a[1..] + b;
      WithoutAppend(a[1..], b, id);
    }
  }

  /**
   * A toast that is shown and then dismissed leaves the list exactly as it
   * was before, provided its id was not already in use.
   */
  lemma NotifyThenRemove(notifications: seq<Notification>, n: Notification)
    requires IdUnused(notifications, n.id)
    ensures Without(notifications + [n], n.id) == notifications
  {
    WithoutAppend(notifications, [n], n.id);
    WithoutUnusedId(notifications, n.id);
    assert Without([n], n.id) == [];
  }

  /** The provider's `notifications` state. */
  class NotificationCenter {
    var notifications: seq<Notification>

    constructor ()
      ensures notifications == []
    {
      notifications := [];
    }

    /** `notify`: one entry with the given id, type and message is added at the end. */
    method Notify(kind: NotificationType, message: string, id: string)
      modifies this
      ensures notifications == old(notifications) + [Notification(id, kind, message)]
    {
      notifications := notifications + [Notification(id, kind, message)];
    }

    /** `removeNotification`: every entry with the id is dropped. */
    method RemoveNotification(id: string)
      modifies this
      ensures notifications == Without(old(notifications), id)
    {
      notifications := Without(notifications, id);
    }
  }

  const MissingProviderMessage := "useNotification must be used within a NotificationProvider"

  /**
   * `useNotification`: the provider's context when there is one, and the
   * error the hook throws when it is called outside any provider.
   */
  function UseNotification(context: Option<NotificationCenter>): (r: Result<NotificationCenter, string>)
    ensures r.Failure? <==> context.None?
    ensures r.Failure? ==> r.error == MissingProviderMessage
    ensures context.Some? ==> r == Result.Success(context.value)
  {
    match context
    case None => Failure(MissingProviderMessage)
    case Some(c) => Result.Success(c)
  }
}
