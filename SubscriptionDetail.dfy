/**
  The state behind the subscription detail screen (`SubscriptionDetail`): the edit mode,
  the set of selected notifications, and deleting the selected notifications from the
  subscription's list and from the local database.
*/
module SubscriptionDetailView {
  import opened Wrappers
  import opened Notification

  datatype EditMode = Inactive | Active

  /** The local database, seen through the notifications it has been asked to delete. */
  class Database {
    var deletedNotifications: seq<NtfyNotification>

    constructor ()
      ensures deletedNotifications == []
    {
      deletedNotifications := [];
    }

    method DeleteNotification(notification: NtfyNotification)
      modifies this
      ensures deletedNotifications == old(deletedNotifications) + [notification]
    {
      deletedNotifications := deletedNotifications + [notification];
    }
  }

  /** The subscription whose notifications the screen lists. */
  class Subscription {
    var notifications: seq<NtfyNotification>

    constructor (notifications: seq<NtfyNotification>)
      ensures this.notifications == notifications
    {
      this.notifications := notifications;
    }
  }

  // ---------------------------------------------------------------------------
  // Specification of the delete loop
  // ---------------------------------------------------------------------------

  /** `lastIndex(where: { $0 == id })`: the position of the last notification with that id. */
  function LastIndexOf(list: seq<NtfyNotification>, id: string): (r: Option<nat>)
    ensures r.Some? ==> r.value < |list| && list[r.value].id == id
    ensures r.Some? ==> forall j :: r.value < j < |list| ==> list[j].id != id
    ensures r.None? ==> forall j :: 0 <= j < |list| ==> list[j].id != id
    decreases |list|
  {
    if list == [] then None
    else if list[|list| - 1].id == id then Some(|list| - 1)
    else LastIndexOf(list[..|list| - 1], id)
  }

  function RemoveAt(list: seq<NtfyNotification>, i: nat): seq<NtfyNotification>
    requires i < |list|
  {
    list[..i] + list[i + 1..]
  }

  /** The subscription's list and the database's delete log, as the loop changes them. */
  datatype DeleteState = DeleteState(list: seq<NtfyNotification>, deleted: seq<NtfyNotification>)

  /**
    One pass of the loop body as written: remove the last notification with the selected
    id from the list, and delete the record at that index of the pre-loop `snapshot`.
  */
  function DeleteStep(st: DeleteState, snapshot: seq<NtfyNotification>, id: string): (r: DeleteState)
    requires |st.list| <= |snapshot|
    ensures |r.list| <= |st.list|
    ensures |r.list| + |r.deleted| == |st.list| + |st.deleted|
  {
    match LastIndexOf(st.list, id)
    case None => st
    case Some(i) => DeleteState(RemoveAt(st.list, i), st.deleted + [snapshot[i]])
  }

  /** The whole loop, visiting the selected ids in the order `order`. */
  function DeleteAll(st: DeleteState, snapshot: seq<NtfyNotification>, order: seq<string>): (r: DeleteState)
    requires |st.list| <= |snapshot|
    ensures |r.list| <= |st.list|
    ensures |r.list| + |r.deleted| == |st.list| + |st.deleted|
    decreases |order|
  {
    if order == [] then st
    else DeleteAll(DeleteStep(st, snapshot, order[0]), snapshot, order[1..])
  }

  lemma {:induction false} DeleteAllSnoc(st: DeleteState, snapshot: seq<NtfyNotification>,
                                         order: seq<string>, id: string)
    requires |st.list| <= |snapshot|
    ensures DeleteAll(st, snapshot, order + [id]) == DeleteStep(DeleteAll(st, snapshot, order), snapshot, id)
    decreases |order|
  {
    if order == [] {
      assert [id][1..] == [];
    } else {
      assert (order + [id])[1..] == order[1..] + [id];
      DeleteAllSnoc(DeleteStep(st, snapshot, order[0]), snapshot, order[1..], id);
    }
  }

  function Elements(order: seq<string>): set<string> {
    set x | x in order
  }

  /** `order` lists every member of `s` exactly once: one way of iterating over the set. */
  predicate Enumerates(order: seq<string>, s: set<string>) {
    (forall i, j :: 0 <= i < j < |order| ==> order[i] != order[j]) && Elements(order) == s
  }

  lemma EnumeratesSnoc(order: seq<string>, done: set<string>, id: string)
    requires Enumerates(order, done) && id !in done
    ensures Enumerates(order + [id], done + {id})
  {
    assert Elements(order + [id]) == Elements(order) + {id};
  }

  predicate DistinctIds(list: seq<NtfyNotification>) {
    forall i, j :: 0 <= i < j < |list| ==> list[i].id != list[j].id
  }

  /** The notifications whose ids are not in `ids`, in their original order. */
  function Without(list: seq<NtfyNotification>, ids: set<string>): (r: seq<NtfyNotification>)
    ensures |r| <= |list|
  {
    if list == [] then []
    else (if list[0].id in ids then [] else [list[0]]) + Without(list[1..], ids)
  }

  /**
    A selected id with no notification leaves everything unchanged; otherwise exactly one
    notification is removed, the last with that id, and the snapshot record at its index
    is deleted.
  */
  lemma DeleteStepRemovesLastMatch(st: DeleteState, snapshot: seq<NtfyNotification>, id: string, i: nat)
    requires |st.list| <= |snapshot|
    ensures (forall j :: 0 <= j < |st.list| ==> st.list[j].id != id) ==> DeleteStep(st, snapshot, id) == st
    ensures i < |st.list| && st.list[i].id == id && (forall j :: i < j < |st.list| ==> st.list[j].id != id) ==>
              DeleteStep(st, snapshot, id) == DeleteState(RemoveAt(st.list, i), st.deleted + [snapshot[i]])
  {
    match LastIndexOf(st.list, id)
    case None =>
    case Some(k) =>
      if i < |st.list| && st.list[i].id == id && (forall j :: i < j < |st.list| ==> st.list[j].id != id) {
        assert !(k < i) && !(i < k);
      }
  }

  lemma {:induction false} WithoutAppend(a: seq<NtfyNotification>, b: seq<NtfyNotification>, ids: set<string>)
    ensures Without(a + b, ids) == Without(a, ids) + Without(b, ids)
    decreases |a|
  {
    if a != [] {
      assert (a + b)[1..] == a[1..] + b;
      WithoutAppend(a[1..], b, ids);
    } else {
      assert a + b == b;
    }
  }

  lemma {:induction false} WithoutNothing(list: seq<NtfyNotification>, ids: set<string>)
    requires forall j :: 0 <= j < |list| ==> list[j].id !in ids
    ensures Without(list, ids) == list
    decreases |list|
  {
    if list != [] {
      WithoutNothing(list[1..], ids);
    }
  }

  /** `Without` keeps exactly the notifications whose ids are not excluded. */
  lemma {:induction false} WithoutMembers(list: seq<NtfyNotification>, ids: set<string>, x: NtfyNotification)
    ensures x in Without(list, ids) <==> x in list && x.id !in ids
    decreases |list|
  {
    if list != [] {
      WithoutMembers(list[1..], ids, x);
      assert list == [list[0]] + list[1..];
    }
  }

  lemma {:induction false} WithoutKeepsDistinct(list: seq<NtfyNotification>, ids: set<string>)
    requires DistinctIds(list)
    ensures DistinctIds(Without(list, ids))
    decreases |list|
  {
    if list != [] {
      var rest := Without(list[1..], ids);
      WithoutKeepsDistinct(list[1..], ids);
      forall k | 0 <= k < |rest|
        ensures rest[k].id != list[0].id
      {
        WithoutMembers(list[1..], ids, rest[k]);
        var m :| 0 <= m < |list[1..]| && list[1..][m] == rest[k];
        assert list[1 + m] == rest[k];
      }
    }
  }

  lemma {:induction false} WithoutTwice(list: seq<NtfyNotification>, a: set<string>, b: set<string>)
    ensures Without(Without(list, a), b) == Without(list, a + b)
    decreases |list|
  {
    if list != [] {
      WithoutTwice(list[1..], a, b);
      var head: seq<NtfyNotification> := if list[0].id in a then [] else [list[0]];
      WithoutAppend(head, Without(list[1..], a), b);
    }
  }

  /** When only position `i` carries `id`, excluding `id` removes exactly that position. */
  lemma {:induction false} WithoutRemovesOne(list: seq<NtfyNotification>, i: nat, id: string)
    requires i < |list| && list[i].id == id
    requires forall j :: 0 <= j < |list| && j != i ==> list[j].id != id
    ensures Without(list, {id}) == RemoveAt(list, i)
    decreases |list|
  {
    var rest := list[1..];
    if i == 0 {
      WithoutNothing(rest, {id});
    } else {
      WithoutRemovesOne(rest, i - 1, id);
      assert [list[0]] + rest[..i - 1] == list[..i];
      assert rest[i..] == list[i + 1..];
    }
  }

  lemma DistinctIdsOnlyAt(list: seq<NtfyNotification>, i: nat)
    requires i < |list| && DistinctIds(list)
    ensures forall j :: 0 <= j < |list| && j != i ==> list[j].id != list[i].id
  {
  }

  /** On a list with distinct ids, one pass removes exactly the notification with that id. */
  lemma DeleteStepDistinct(st: DeleteState, snapshot: seq<NtfyNotification>, id: string)
    requires |st.list| <= |snapshot| && DistinctIds(st.list)
    ensures DeleteStep(st, snapshot, id).list == Without(st.list, {id})
  {
    match LastIndexOf(st.list, id)
    case None =>
      WithoutNothing(st.list, {id});
    case Some(i) =>
      DistinctIdsOnlyAt(st.list, i);
      WithoutRemovesOne(st.list, i, id);
  }

  lemma ElementsCons(order: seq<string>)
    requires order != []
    ensures Elements(order) == {order[0]} + Elements(order[1..])
  {
    assert order == [order[0]] + order[1..];
  }

  /**
    With distinct ids the loop leaves the original list minus every selected notification,
    survivors in their original order, whatever order the selection is visited in.
  */
  lemma {:induction false} DeleteAllDistinct(st: DeleteState, snapshot: seq<NtfyNotification>, order: seq<string>)
    requires |st.list| <= |snapshot| && DistinctIds(st.list)
    ensures DeleteAll(st, snapshot, order).list == Without(st.list, Elements(order))
    decreases |order|
  {
    if order == [] {
      assert Elements(order) == {};
      WithoutNothing(st.list, {});
    } else {
      var next := DeleteStep(st, snapshot, order[0]);
      DeleteStepDistinct(st, snapshot, order[0]);
      WithoutKeepsDistinct(st.list, {order[0]});
      DeleteAllDistinct(next, snapshot, order[1..]);
      WithoutTwice(st.list, {order[0]}, Elements(order[1..]));
      ElementsCons(order);
    }
  }

  /** Two enumerations of the same selection leave the same list when ids are distinct. */
  lemma DeleteOrderIrrelevant(st: DeleteState, snapshot: seq<NtfyNotification>,
                              order1: seq<string>, order2: seq<string>, selection: set<string>)
    requires |st.list| <= |snapshot| && DistinctIds(st.list)
    requires Enumerates(order1, selection) && Enumerates(order2, selection)
    ensures DeleteAll(st, snapshot, order1).list == DeleteAll(st, snapshot, order2).list
  {
    DeleteAllDistinct(st, snapshot, order1);
    DeleteAllDistinct(st, snapshot, order2);
  }

  /**
    When the snapshot is the current list, the first deleted record is the notification
    actually removed.
  */
  lemma FirstDeletionIsRemovedRecord(st: DeleteState, id: string)
    requires LastIndexOf(st.list, id).Some?
    ensures DeleteStep(st, st.list, id).deleted == st.deleted + [st.list[LastIndexOf(st.list, id).value]]
  {
  }

  /**
    After an earlier removal at a lower index the snapshot index no longer points at the
    removed notification: deleting `a` then `c` from `[a, b, c]` removes `a` and `c` from
    the list but deletes `a` and `b` from the database.
  */
  lemma SnapshotIndexDeletesWrongRecord(a: NtfyNotification, b: NtfyNotification, c: NtfyNotification)
    requires a.id != b.id && b.id != c.id && a.id != c.id
    ensures DeleteAll(DeleteState([a, b, c], []), [a, b, c], [a.id, c.id]) == DeleteState([b], [a, b])
    ensures multiset([b]) + multiset([a, b]) != multiset([a, b, c])
  {
    var abc := [a, b, c];
    var s0 := DeleteState(abc, []);
    assert abc[..2] == [a, b] && [a, b][..1] == [a];
    assert LastIndexOf([a], a.id) == Some(0);
    assert LastIndexOf([a, b], a.id) == Some(0);
    assert LastIndexOf(abc, a.id) == Some(0);
    assert RemoveAt(abc, 0) == [b, c];
    var s1 := DeleteState([b, c], [a]);
    assert DeleteStep(s0, abc, a.id) == s1;
    assert LastIndexOf([b, c], c.id) == Some(1);
    assert RemoveAt([b, c], 1) == [b];
    var s2 := DeleteState([b], [a, b]);
    assert DeleteStep(s1, abc, c.id) == s2;
    var order := [a.id, c.id];
    assert order[0] == a.id && order[1..] == [c.id] && [c.id][1..] == [];
    assert DeleteAll(s1, abc, [c.id]) == DeleteAll(s2, abc, []) == s2;
    assert DeleteAll(s0, abc, order) == DeleteAll(s1, abc, [c.id]);
    assert multiset([b])[b] + multiset([a, b])[b] == 2;
    assert multiset([a, b, c])[b] == 1;
  }

  /** The intended pass: delete from the database the notification removed from the list. */
  function DeleteStepIntended(st: DeleteState, id: string): (r: DeleteState)
    ensures multiset(r.list) + multiset(r.deleted) == multiset(st.list) + multiset(st.deleted)
  {
    match LastIndexOf(st.list, id)
    case None => st
    case Some(i) =>
      assert st.list == st.list[..i] + [st.list[i]] + st.list[i + 1..];
      DeleteState(RemoveAt(st.list, i), st.deleted + [st.list[i]])
  }

  function DeleteAllIntended(st: DeleteState, order: seq<string>): DeleteState
    decreases |order|
  {
    if order == [] then st else DeleteAllIntended(DeleteStepIntended(st, order[0]), order[1..])
  }

  /**
    The intended loop removes the same notifications from the list as the written one, and
    every notification ends up either still listed or deleted from the database, once.
  */
  lemma {:induction false} DeleteAllIntendedCorrect(st: DeleteState, snapshot: seq<NtfyNotification>, order: seq<string>)
    requires |st.list| <= |snapshot|
    ensures DeleteAllIntended(st, order).list == DeleteAll(st, snapshot, order).list
    ensures multiset(DeleteAllIntended(st, order).list) + multiset(DeleteAllIntended(st, order).deleted)
            == multiset(st.list) + multiset(st.deleted)
    decreases |order|
  {
    if order != [] {
      DeleteAllIntendedCorrect(DeleteStepIntended(st, order[0]), snapshot, order[1..]);
      var written := DeleteStep(st, snapshot, order[0]);
      assert DeleteStepIntended(st, order[0]).list == written.list;
      DeleteAllListIgnoresLog(DeleteStepIntended(st, order[0]), written, snapshot, order[1..]);
    }
  }

  /** The list the written loop leaves does not depend on the delete log so far. */
  lemma {:induction false} DeleteAllListIgnoresLog(s: DeleteState, t: DeleteState,
                                                   snapshot: seq<NtfyNotification>, order: seq<string>)
    requires s.list == t.list && |s.list| <= |snapshot|
    ensures DeleteAll(s, snapshot, order).list == DeleteAll(t, snapshot, order).list
    decreases |order|
  {
    if order != [] {
      DeleteAllListIgnoresLog(DeleteStep(s, snapshot, order[0]), DeleteStep(t, snapshot, order[0]),
                              snapshot, order[1..]);
    }
  }

  // ---------------------------------------------------------------------------
  // The screen state
  // ---------------------------------------------------------------------------

  class SubscriptionDetail {
    const subscription: Subscription
    const database: Database
    var editMode: EditMode
    /** The selected notifications, by id: the selection set hashes and compares them by id. */
    var selection: set<string>

    constructor (subscription: Subscription, database: Database)
      ensures this.subscription == subscription && this.database == database
      ensures editMode == Inactive && selection == {}
    {
      this.subscription := subscription;
      this.database := database;
      editMode := Inactive;
      selection := {};
    }

    /** The edit button's label: "Select Messages" when inactive, "Done" when active. */
    /** The edit button's label: it offers to select while inactive and to finish while active. */
    function EditButtonTitle(): (r: string)
      reads this
      ensures r == "Select Messages" <==> editMode == Inactive
      ensures r == "Done" <==> editMode == Active
    {
      assert "Select Messages"[0] != "Done"[0];
      match editMode
      case Inactive => "Select Messages"
      case Active => "Done"
    }

    /** The edit button toggles the edit mode and clears the selection either way. */
    method TapEditButton()
      modifies this`editMode, this`selection
      ensures old(editMode) == Inactive ==> editMode == Active
      ensures old(editMode) == Active ==> editMode == Inactive
      ensures selection == {}
      ensures EditButtonTitle() != old(EditButtonTitle())
    {
      if editMode == Inactive {
        editMode := Active;
        selection := {};
      } else {
        editMode := Inactive;
        selection := {};
      }
    }

    /**
      `deleteSelectedNotifications(notifications:)`: visits the selection in some order
      (returned as `order`), removing and deleting as `DeleteAll` describes, then clears
      the selection.
    */
    method DeleteSelectedNotifications(snapshot: seq<NtfyNotification>) returns (ghost order: seq<string>)
      requires |subscription.notifications| <= |snapshot|
      modifies this`selection, subscription, database
      ensures Enumerates(order, old(selection))
      ensures DeleteAll(DeleteState(old(subscription.notifications), old(database.deletedNotifications)), snapshot, order)
              == DeleteState(subscription.notifications, database.deletedNotifications)
      ensures DistinctIds(old(subscription.notifications)) ==>
              subscription.notifications == Without(old(subscription.notifications), old(selection))
      ensures selection == {}
    {
      ghost var start := DeleteState(subscription.notifications, database.deletedNotifications);
      ghost var done: set<string> := {};
      var remaining := selection;
      order := [];
      assert Elements(order) == {};
      while remaining != {}
        invariant done + remaining == old(selection) && done !! remaining
        invariant Enumerates(order, done)
        invariant |subscription.notifications| <= |snapshot|
        invariant DeleteAll(start, snapshot, order) == DeleteState(subscription.notifications, database.deletedNotifications)
        decreases remaining
      {
        var id :| id in remaining;
        DeleteAllSnoc(start, snapshot, order, id);
        var index := LastIndexOf(subscription.notifications, id);
        if index.Some? {
          subscription.notifications := RemoveAt(subscription.notifications, index.value);
          database.DeleteNotification(snapshot[index.value]);
        }
        EnumeratesSnoc(order, done, id);
        remaining := remaining - {id};
        done := done + {id};
        order := order + [id];
      }
      if DistinctIds(start.list) {
        DeleteAllDistinct(start, snapshot, order);
      }
      selection := {};
    }

    /** Confirming the "Delete" alert deletes the selection and leaves edit mode. */
    method ConfirmDeleteSelected() returns (ghost order: seq<string>)
      modifies this`selection, this`editMode, subscription, database
      ensures Enumerates(order, old(selection))
      ensures DeleteAll(DeleteState(old(subscription.notifications), old(database.deletedNotifications)),
                        old(subscription.notifications), order)
              == DeleteState(subscription.notifications, database.deletedNotifications)
      ensures editMode == Inactive && selection == {}
    {
      order := DeleteSelectedNotifications(subscription.notifications);
      editMode := Inactive;
    }
  }
}
