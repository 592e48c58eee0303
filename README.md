# ntfy iOS client: notification tags, selected-message deletion, attachment labels

This project is a Dafny model of the small amount of sequential logic in the ntfy iOS
client, a SwiftUI app that receives push notifications for subscribed topics. It covers
three parts:

- **`NtfyNotification`** (module `Notification`). A received message. When a
  notification is built, `setTags` splits its raw tags into two lists. A tag that is an
  emoji alias adds its emoji to `emojiTags`. Any other non-empty tag goes to
  `nonEmojiTags`. Empty tags are dropped. The class also has:
  - the two display strings built from those lists;
  - equality and hashing, both by `id` only;
  - the defaults applied when a message payload is decoded.

  The emoji table (`EmojiManager.current`) is an abstract function parameter of type
  `string -> Option<string>`.
- **`SubscriptionDetail`** (module `SubscriptionDetailView`). The state behind a
  subscription's message list:
  - the edit mode (inactive or active);
  - the selection;
  - deleting the selected messages from the subscription's list and from the local
    database.

  The database (`Database.current`) is modelled as the log of notifications it was asked
  to delete. The selection is a `Set`, so its iteration order is unspecified. The model
  picks the next element with `:|` and returns the order it used as a ghost value.
- **`NtfyAttachment`** (module `Attachment`). A file attached to a notification: its
  defaults, whether it has been downloaded, its expiry label and its size label for
  sizes below 1000 bytes. For `download`, only the effect on the attachment's state is
  modelled. The outcome of the network and file operations is an input.

Module `Decimal` models Swift's `"\(n)"` interpolation of an `Int64` as decimal digits.
`ParseInt` reads those digits back; it is used to say what a label contains. Module
`Wrappers` holds `Option` and `Result`.

In Swift, `NtfyNotification.id` is a `var`, but nothing ever reassigns it after
initialisation. The model makes it a `const`, so equality and `lastIndex(where:)` can
read it without a frame. Swift's `Set<NtfyNotification>` hashes and compares its
elements by `id` only. The model therefore stores the selection as a set of ids.

## Model

| member | source | states |
|---|---|---|
| `Notification.SplitTags` | ntfy-ios/Models/NtfyNotification.swift:71-79 | The lists one pass of `setTags` appends. Together they hold at most as many entries as there are tags. Every plain tag is one of the input tags, and no plain tag is empty. |
| `Notification.NtfyNotification.SetTags` | ntfy-ios/Models/NtfyNotification.swift:71-79 | Only appends to `emojiTags` and `nonEmojiTags`, never resets them. It adds exactly the split of `tags`, and keeps the invariant that `nonEmojiTags` holds no empty tag. |
| `Notification.NtfyNotification.constructor` | ntfy-ios/Models/NtfyNotification.swift:26-39 | Stores every argument. Priority defaults to 3 and tags default to []. The two tag lists are exactly the split of `tags`, computed once at construction. |
| `Notification.NtfyNotification.FromDecoded` | ntfy-ios/Models/NtfyNotification.swift:45-57 | Builds the notification from decoded field values and derives the tag split from the decoded tags. |
| `Notification.SplitTagsAppend` | ntfy-ios/Models/NtfyNotification.swift:72-78 | Splitting `a + b` gives the split of `a` followed by the split of `b`, in both lists. |
| `Notification.SplitTagsInOrder` | ntfy-ios/Models/NtfyNotification.swift:72-78 | The split equals a tag-by-tag reference reading. Each tag, in its original order, contributes its emoji, itself, or nothing. |
| `Notification.PlainTagMembership` | ntfy-ios/Models/NtfyNotification.swift:72-77 | A string is a plain tag if and only if it is one of the tags, is non-empty, and has no emoji alias. |
| `Notification.EmojiTagMembership` | ntfy-ios/Models/NtfyNotification.swift:73-74 | An emoji is among the emoji tags if and only if some tag is an alias for it. |
| `Notification.SplitTagsKeepsAll` | ntfy-ios/Models/NtfyNotification.swift:72-77 | The two lists together are as long as the tags if and only if no tag is dropped. In particular this holds when no tag is empty. |
| `Notification.SuffixedIsJoinedPlusSeparator` | ntfy-ios/Models/NtfyNotification.swift:134-138 | For a non-empty list, the string the loop accumulates is the `", "`-join followed by one trailing separator. |
| `Notification.DropTrailingSeparatorIsJoin` | ntfy-ios/Models/NtfyNotification.swift:134-143 | Dropping the last separator gives exactly the join. For n > 0 tags, its length is the sum of the tag lengths plus the separator length times (n - 1). |
| `Notification.JoinedEmptyIff` | ntfy-ios/Models/NtfyNotification.swift:130-143 | A join of non-empty tags is "" if and only if there are no tags. |
| `Notification.NtfyNotification.DisplayEmojiTags` | ntfy-ios/Models/NtfyNotification.swift:118-128 | Each emoji is followed by one space. The length is the sum of the emoji lengths plus n. The string is "" if and only if `hasEmojiTags()` is false. |
| `Notification.NtfyNotification.DisplayNonEmojiTags` | ntfy-ios/Models/NtfyNotification.swift:130-143 | The plain tags joined by `", "` with no trailing separator. The length is the sum of the tag lengths plus 2(n - 1). The string is "" if and only if `hasNonEmojiTags()` is false. |
| `Notification.NtfyNotification.HasEmojiTags` | ntfy-ios/Models/NtfyNotification.swift:118-120 | There are emoji tags exactly when the emoji display string is non-empty. |
| `Notification.NtfyNotification.HasNonEmojiTags` | ntfy-ios/Models/NtfyNotification.swift:130-132 | While no plain tag is empty, there are plain tags exactly when the joined display string is non-empty. |
| `Notification.Decode` | ntfy-ios/Models/NtfyNotification.swift:45-54 | Succeeds if and only if `id`, `topic`, `time` and `message` are present; otherwise it reports the first missing key in reading order. Present values are kept. A missing `title` becomes "", a missing `priority` becomes 3, and missing `tags` become []. |
| `Notification.DecodeEncode` | ntfy-ios/Models/NtfyNotification.swift:45-54 | A payload that carries every key decodes to exactly the values it carries. |
| `Notification.NtfyNotification.Equals` | ntfy-ios/Models/NtfyNotification.swift:59-61 | A notification equals itself, and two notifications are equal exactly when their ids are. |
| `Notification.NtfyNotification.HashValue` | ntfy-ios/Models/NtfyNotification.swift:63-65 | The hash is the hasher applied to the id and nothing else. |
| `Notification.EqualsIsEquivalence` | ntfy-ios/Models/NtfyNotification.swift:59-61 | Equality compares ids only, whatever the other fields hold. It is reflexive, symmetric and transitive. |
| `Notification.EqualNotificationsHashAlike` | ntfy-ios/Models/NtfyNotification.swift:59-65 | Equal notifications hash alike for every hasher, because the hash reads only the id. |
| `SubscriptionDetailView.LastIndexOf` | ntfy-ios/Views/SubscriptionDetail.swift:162 | `lastIndex(where:)` returns the position of a notification with that id, with no later match. It returns None if and only if no notification has that id. |
| `SubscriptionDetailView.DeleteStep` | ntfy-ios/Views/SubscriptionDetail.swift:162-164 | One visited id never grows the list, and the list shrinks by exactly as many notifications as the database log grows. |
| `SubscriptionDetailView.DeleteAll` | ntfy-ios/Views/SubscriptionDetail.swift:161-166 | The loop never grows the list. Every removal from the list adds exactly one database delete. |
| `SubscriptionDetailView.DeleteStepRemovesLastMatch` | ntfy-ios/Views/SubscriptionDetail.swift:161-165 | A selected id with no match leaves the list and the database unchanged. Otherwise exactly one notification is removed, the last match, and the snapshot record at that index is deleted. |
| `SubscriptionDetailView.DeleteAllDistinct` | ntfy-ios/Views/SubscriptionDetail.swift:161-166 | If ids are distinct, the result is the original list minus every visited id, with survivors in their original order. |
| `SubscriptionDetailView.DeleteOrderIrrelevant` | ntfy-ios/Views/SubscriptionDetail.swift:161-166 | If ids are distinct, any two enumerations of the same selection leave the same list. |
| `SubscriptionDetailView.FirstDeletionIsRemovedRecord` | ntfy-ios/Views/SubscriptionDetail.swift:121-164 | When the snapshot is the current list, the first database delete is the notification actually removed. |
| `SubscriptionDetailView.SnapshotIndexDeletesWrongRecord` | ntfy-ios/Views/SubscriptionDetail.swift:162-164 | Take `[a, b, c]` with distinct ids and delete `a` and then `c`. The list keeps `b`, but the database deletes `a` and `b`, so listed plus deleted is no longer the original multiset. |
| `SubscriptionDetailView.DeleteStepIntended` | ntfy-ios/Views/SubscriptionDetail.swift:162-164 | The corrected pass deletes the removed element. Every notification is either still listed or deleted, exactly once (multiset conservation). |
| `SubscriptionDetailView.DeleteAllIntendedCorrect` | ntfy-ios/Views/SubscriptionDetail.swift:161-166 | The corrected loop leaves the same list as the written one, and it conserves the multiset of listed plus deleted notifications. |
| `SubscriptionDetailView.SubscriptionDetail.DeleteSelectedNotifications` | ntfy-ios/Views/SubscriptionDetail.swift:160-168 | Visits the selection in some order that enumerates it, and its effect on the list and the database log is `DeleteAll` in that order. If ids are distinct, the list becomes the original minus the selection. The selection ends empty. |
| `SubscriptionDetailView.SubscriptionDetail.ConfirmDeleteSelected` | ntfy-ios/Views/SubscriptionDetail.swift:117-123 | Confirming the alert deletes the selection, using the current list as the snapshot, and leaves edit mode inactive with an empty selection. |
| `SubscriptionDetailView.SubscriptionDetail.EditButtonTitle` | ntfy-ios/Views/SubscriptionDetail.swift:142-157 | The button reads "Select Messages" exactly when the edit mode is inactive, and "Done" exactly when it is active. |
| `SubscriptionDetailView.SubscriptionDetail.TapEditButton` | ntfy-ios/Views/SubscriptionDetail.swift:142-157 | "Select Messages" moves inactive to active and "Done" moves active to inactive, so the button's label always changes. Both clear the selection. |
| `SubscriptionDetailView.SubscriptionDetail.constructor` | ntfy-ios/Views/SubscriptionDetail.swift:17-18 | The screen starts inactive with an empty selection. |
| `Attachment.NtfyAttachment.constructor` | ntfy-ios/Models/NtfyAttachment.swift:19-27 | Stores every argument. Type, url and contentUrl default to "", and size and expires default to 0. The attachment is downloaded exactly when the given contentUrl is non-empty, so by default it is not. |
| `Attachment.NtfyAttachment.IsDownloaded` | ntfy-ios/Models/NtfyAttachment.swift:41-43 | Downloaded exactly when a local content URL has been recorded. |
| `Attachment.NtfyAttachment.SizeString` | ntfy-ios/Models/NtfyAttachment.swift:33-34 | For a size below 1000 (zero and negatives included), the label is the size in decimal followed by " B". The numeral is in canonical form (no leading zero, no "-0"), and reading it back gives the size. |
| `Attachment.NtfyAttachment.ExpiresString` | ntfy-ios/Models/NtfyAttachment.swift:45-47 | "Expires " followed by the decimal value of `expires`. The numeral is in canonical form, and reading it back gives `expires`. |
| `Attachment.NtfyAttachment.Download` | ntfy-ios/Models/NtfyAttachment.swift:49-84 | Only a successful move sets `contentUrl` and saves the attachment. Every error exit leaves `contentUrl`, and so whether the attachment is downloaded, unchanged. |
| `Decimal.NatToDecimal` | ntfy-ios/Models/NtfyAttachment.swift:34 | The decimal rendering is one or more digits with no leading zero. |
| `Decimal.IntToDecimal` | ntfy-ios/Models/NtfyAttachment.swift:34 | The rendering of a signed integer is a canonical numeral: "0", or digits with a non-zero lead, after a minus sign exactly when the number is negative. |
| `Decimal.IntToDecimalRoundTrip` | ntfy-ios/Models/NtfyAttachment.swift:46 | Parsing the rendering of n gives back n. |
| `Decimal.IntToDecimalInjective` | ntfy-ios/Models/NtfyAttachment.swift:46 | Distinct numbers render to distinct strings. |
| `Decimal.CanonicalNumeralUnique` | ntfy-ios/Models/NtfyAttachment.swift:46 | A canonical numeral that parses to n is the rendering of n, so the rendering is the only canonical numeral for each number. |
| `Decimal.CanonicalDigitsArePrinted` | ntfy-ios/Models/NtfyAttachment.swift:34 | Digits without a leading zero are exactly the unsigned rendering of their value. |

## Findings

| source | as written | input that shows it | evidently intended | confidence | as-written member | corrected member |
|---|---|---|---|---|---|---|
| ntfy-ios/Views/SubscriptionDetail.swift:162-164 | The index is looked up in the list as it shrinks, but the database deletes the record at that index of the pre-loop copy `notifications`. | List `[a, b, c]` with distinct ids, selection visited as `a` then `c`. The list ends as `[b]`, but the database deletes `a` and `b`: `b` stays listed yet is deleted, and `c` disappears from the list but stays stored. | Delete from the database the notification just removed from the list. | not executed; the order depends on `Set` iteration, which is unspecified | `SubscriptionDetailView.SnapshotIndexDeletesWrongRecord` | `SubscriptionDetailView.DeleteAllIntendedCorrect` |

The class method `DeleteSelectedNotifications` models the code as written. The corrected
loop `DeleteAllIntended` is proved to leave the same list and to conserve the multiset
of listed plus deleted notifications.

## Left out

- `Attachment.NtfyAttachment.SizeString`: the `size >= 1000` branch is left out, because it is floating point (`log2`, `pow` and `%.1f` formatting). The member requires `size < 1000`.
- `Attachment.NtfyAttachment.Download`: the URL parsing, the download task, the app-group container, the file-system calls and the print diagnostics are not modelled. Their result is the `DownloadOutcome` input, and the call to `save()` is reported as the returned flag.
- `Notification.Decode`: the keyed `Decoder` container and value type mismatches are not modelled. The payload is a record with one optional value per key. Decoding the nested attachment is left out too: `NtfyAttachment`'s `Decodable` conformance is not part of this model, so `FromDecoded` takes the attachment as an argument.
- `Notification.NtfyNotification.FromDecoded`: the `subscriptionId` database lookup by topic, and its force unwrap, are a query to the database singleton. The id is passed in.
- `displayShortDateTime` and `timestampString` depend on the calendar, the locale and `DateFormatter`. `displayTitle` only returns `title`.
- `save()` on notifications and attachments, and the remaining `Database.current` calls (clearing all notifications, unsubscribing, loading), are foreign calls. The only database effect modelled is the delete log.
- The view body, toolbar and alert layout, the "Send Test Notification" button (random priority and tags, network publish), `.refreshable`/`.onAppear`, `SubscriptionDetailViewModel`, and the whole of `SubscriptionsList.swift` are UI composition, randomness or network glue. Changes to the selection made by SwiftUI's list binding are not modelled either: the selection is a field that list interaction may set.
- Strings are sequences of characters. Swift's `String.count` and `dropLast(2)` work on grapheme clusters, and the model works on characters. The two agree for the `", "` separator that is dropped, as long as a tag's last character does not combine with the comma. In the same way, id equality (`Equals`, `LastIndexOf`) and membership in the selection compare code points here, while Swift's `String` compares and hashes by Unicode canonical equivalence: `"\u{E9}"` and `"e\u{301}"` are one id in Swift and two here. The model is exact when all ids share one normal form, as ASCII server-generated ids do.
- Integer widths: `size`, `expires`, `timestamp`, and subscription and attachment ids are `Int64` in Swift and unbounded integers here. No operation in the model performs arithmetic on them.
