/**
 * The notification controller: a user's notifications newest first, and marking one read.
 * Marking read is the only change ever made to a stored notification's modelled fields (the
 * `updatedAt` stamp its save also moves is not modelled).
 */
module Notifications {
  import opened Wrappers
  import opened Lists
  import opened Schema
  import opened Store
  import opened Http

  function CreatedAt(n: Notification): int {
    n.createdAt
  }

  /** `Notification.find({ recipient }).sort({ createdAt: -1 })`: exactly the recipient's
      notifications, newest first. */
  function Inbox(ns: seq<Notification>, recipient: Id): (r: seq<Notification>)
    ensures SortedDesc(r, CreatedAt)
    ensures forall i :: 0 <= i < |r| ==> r[i].recipient == recipient && r[i] in ns
    ensures forall i :: 0 <= i < |ns| && ns[i].recipient == recipient ==> ns[i] in r
    ensures multiset(r) == multiset(Filter(ns, AddressedTo(recipient)))
  {
    InboxMembers(ns, recipient, Filter(ns, AddressedTo(recipient)), SortDesc(Filter(ns, AddressedTo(recipient)), CreatedAt));
    SortDesc(Filter(ns, AddressedTo(recipient)), CreatedAt)
  }

  lemma InboxMembers(ns: seq<Notification>, recipient: Id, mine: seq<Notification>, r: seq<Notification>)
    requires mine == Filter(ns, AddressedTo(recipient)) && r == SortDesc(mine, CreatedAt)
    ensures forall i :: 0 <= i < |r| ==> r[i].recipient == recipient && r[i] in ns
    ensures forall i :: 0 <= i < |ns| && ns[i].recipient == recipient ==> ns[i] in r
  {
    forall i | 0 <= i < |r| ensures r[i].recipient == recipient && r[i] in ns {
      assert r[i] in multiset(mine);
      FilterFrom(ns, AddressedTo(recipient), r[i]);
    }
    forall i | 0 <= i < |ns| && ns[i].recipient == recipient ensures ns[i] in r {
      assert AddressedTo(recipient)(ns[i]);
      assert ns[i] in multiset(r);
    }
  }

  function AddressedTo(recipient: Id): Notification -> bool {
    (n: Notification) => n.recipient == recipient
  }

  /** A notification addressed to someone else never shows up in a user's inbox. */
  lemma InboxExcludesOthers(ns: seq<Notification>, recipient: Id, n: Notification)
    requires n in ns && n.recipient != recipient
    ensures n !in Inbox(ns, recipient)
  {
  }

  /** The inbox of a log that gained one entry is the old inbox plus that entry when it is
      addressed to the user, and the old inbox otherwise. */
  lemma InboxAfterAppend(ns: seq<Notification>, n: Notification, recipient: Id)
    ensures multiset(Inbox(ns + [n], recipient)) ==
              multiset(Inbox(ns, recipient)) + (if n.recipient == recipient then multiset{n} else multiset{})
  {
    FilterConcat(ns, [n], AddressedTo(recipient));
  }

  /** `getNotifications`. `req.user._id` is read inside the `try`, so a token whose user no
      longer exists gets 500. */
  function GetNotifications(ns: seq<Notification>, caller: Option<User>): (r: (Status, seq<Notification>))
    ensures caller.None? ==> r == (ServerError, [])
    ensures caller.Some? ==> r.0 == Ok && r.1 == Inbox(ns, caller.value.id)
  {
    if caller.None? then (ServerError, []) else (Ok, Inbox(ns, caller.value.id))
  }

  // ---------------------------------------------------------------------------
  // Marking a notification read

  /** The log with entry `k` marked read and everything else as it was. */
  function MarkRead(ns: seq<Notification>, k: nat): (r: seq<Notification>)
    requires k < |ns|
    ensures |r| == |ns| && r[k].isRead
    ensures r[k] == ns[k].(isRead := true)
    ensures forall i :: 0 <= i < |ns| && i != k ==> r[i] == ns[i]
    ensures LogExtends(ns, r)
  {
    ns[k := ns[k].(isRead := true)]
  }

  lemma MarkReadIdempotent(ns: seq<Notification>, k: nat)
    requires k < |ns|
    ensures MarkRead(MarkRead(ns, k), k) == MarkRead(ns, k)
  {
  }

  /** An entry that is read stays read, whichever entries are marked after it. */
  lemma MarkReadKeepsRead(ns: seq<Notification>, k: nat, i: nat)
    requires k < |ns| && i < |ns| && ns[i].isRead
    ensures MarkRead(ns, k)[i].isRead
  {
  }

  /**
   * `markNotificationRead`. The lookup runs first, so an unknown id is 404 even for a caller
   * whose user no longer exists; such a caller otherwise gets 500, because `req.user._id`
   * throws inside the `try`, as does an id that is not an ObjectId (`None`). Anyone but the
   * recipient gets 403. On success only `isRead` of that one notification changes among the
   * modelled fields; the save's `updatedAt` stamp is not modelled.
   */
  method MarkNotificationRead(db: Database, caller: Option<User>, id: Option<Id>) returns (status: Status)
    requires db.Valid()
    modifies db
    ensures db.Valid()
    ensures db.users == old(db.users) && db.projects == old(db.projects)
    ensures db.documents == old(db.documents) && db.nextId == old(db.nextId)
    ensures LogExtends(old(db.notifications), db.notifications)
    ensures id.None? ==> status == ServerError
    ensures id.Some? && NotificationById(old(db.notifications), id.value).None? ==> status == NotFound
    ensures id.Some? && NotificationById(old(db.notifications), id.value).Some? ==>
              var k := NotificationById(old(db.notifications), id.value).value;
              && (caller.None? ==> status == ServerError)
              && (caller.Some? && old(db.notifications)[k].recipient != caller.value.id ==> status == Forbidden)
              && (caller.Some? && old(db.notifications)[k].recipient == caller.value.id ==>
                    status == Ok && db.notifications == MarkRead(old(db.notifications), k))
    ensures status != Ok ==> db.notifications == old(db.notifications)
  {
    if id.None? {
      return ServerError;  // CastError
    }
    match NotificationById(db.notifications, id.value)
    case None =>
      status := NotFound;
    case Some(k) =>
      if caller.None? {
        return ServerError;
      }
      if db.notifications[k].recipient != caller.value.id {
        return Forbidden;
      }
      NotificationsUpdate(db.notifications, k, db.notifications[k].(isRead := true), db.nextId);
      db.notifications := MarkRead(db.notifications, k);
      status := Ok;
  }
}
