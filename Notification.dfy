/**
  A received notification (`NtfyNotification`): its stored fields, the split of its raw
  tags into emoji and plain tags, the strings the UI shows for those, equality by id,
  and the defaults applied when decoding a message payload.
*/
module Notification {
  import opened Wrappers
  import Attachment

  /**
    The emoji a tag names as an alias, if any (`EmojiManager.current.getEmojiByAlias`
    followed by `getUnicode()`). The emoji table is not part of this model.
  */
  type EmojiLookup = string -> Option<string>

  const DEFAULT_PRIORITY := 3
  const EMOJI_SEPARATOR := " "
  const TAG_SEPARATOR := ", "

  // ---------------------------------------------------------------------------
  // Tag split
  // ---------------------------------------------------------------------------

  /** Where `setTags` sends one tag. */
  datatype TagRoute = ToEmoji(emoji: string) | ToPlain | Dropped

  /** The alias lookup is consulted first; a tag without an alias is kept only if non-empty. */
  function Route(tag: string, lookup: EmojiLookup): TagRoute {
    match lookup(tag)
    case Some(emoji) => ToEmoji(emoji)
    case None => if tag != "" then ToPlain else Dropped
  }

  /** The two lists `setTags` fills: `emojiTags` and `nonEmojiTags`. */
  datatype TagSplit = TagSplit(emoji: seq<string>, plain: seq<string>)

  predicate NoEmptyTags(tags: seq<string>) {
    forall i :: 0 <= i < |tags| ==> tags[i] != ""
  }

  /** What one pass of `setTags` over `tags` appends, in loop order. */
  function SplitTags(tags: seq<string>, lookup: EmojiLookup): (r: TagSplit)
    ensures |r.emoji| + |r.plain| <= |tags|
    ensures NoEmptyTags(r.plain)
    ensures forall i :: 0 <= i < |r.plain| ==> r.plain[i] in tags
    decreases |tags|
  {
    if tags == [] then TagSplit([], [])
    else
      var prefix := SplitTags(tags[..|tags| - 1], lookup);
      var tag := tags[|tags| - 1];
      match Route(tag, lookup)
      case ToEmoji(emoji) => TagSplit(prefix.emoji + [emoji], prefix.plain)
      case ToPlain => TagSplit(prefix.emoji, prefix.plain + [tag])
      case Dropped => prefix
  }

  function Concat(a: TagSplit, b: TagSplit): TagSplit {
    TagSplit(a.emoji + b.emoji, a.plain + b.plain)
  }

  /** The contribution of a single tag: its emoji, itself, or nothing. */
  function SplitOne(tag: string, lookup: EmojiLookup): TagSplit {
    match Route(tag, lookup)
    case ToEmoji(emoji) => TagSplit([emoji], [])
    case ToPlain => TagSplit([], [tag])
    case Dropped => TagSplit([], [])
  }

  /** Reference reading of the split: each tag, first to last, contributes its own part. */
  function SplitEach(tags: seq<string>, lookup: EmojiLookup): TagSplit {
    if tags == [] then TagSplit([], [])
    else Concat(SplitOne(tags[0], lookup), SplitEach(tags[1..], lookup))
  }

  /** Splitting a concatenation splits each part and concatenates the results. */
  lemma {:induction false} SplitTagsAppend(a: seq<string>, b: seq<string>, lookup: EmojiLookup)
    ensures SplitTags(a + b, lookup) == Concat(SplitTags(a, lookup), SplitTags(b, lookup))
    decreases |b|
  {
    if b == [] {
      assert a + b == a;
    } else {
      var b' := b[..|b| - 1];
      assert (a + b)[..|a + b| - 1] == a + b';
      assert (a + b)[|a + b| - 1] == b[|b| - 1];
      SplitTagsAppend(a, b', lookup);
      var sa, sb' := SplitTags(a, lookup), SplitTags(b', lookup);
      assert sa.emoji + sb'.emoji + [] == sa.emoji + (sb'.emoji + []);
      match Route(b[|b| - 1], lookup)
      case ToEmoji(emoji) =>
        assert sa.emoji + sb'.emoji + [emoji] == sa.emoji + (sb'.emoji + [emoji]);
      case ToPlain =>
        assert sa.plain + sb'.plain + [b[|b| - 1]] == sa.plain + (sb'.plain + [b[|b| - 1]]);
      case Dropped =>
    }
  }

  /**
    The split `setTags` derives agrees with the tag-by-tag reading: the emoji tags are the
    emojis of the aliased tags, and the plain tags the non-empty unaliased tags, both in
    their original order.
  */
  lemma {:induction false} SplitTagsInOrder(tags: seq<string>, lookup: EmojiLookup)
    ensures SplitTags(tags, lookup) == SplitEach(tags, lookup)
    decreases |tags|
  {
    if tags != [] {
      var head, rest := tags[0], tags[1..];
      assert tags == [head] + rest;
      SplitTagsAppend([head], rest, lookup);
      assert [head][..0] == [];
      assert SplitTags([head], lookup) == SplitOne(head, lookup);
      SplitTagsInOrder(rest, lookup);
    }
  }

  /** A tag is a plain tag exactly when it is one of the tags, non-empty, with no emoji alias. */
  lemma {:induction false} PlainTagMembership(tags: seq<string>, lookup: EmojiLookup, t: string)
    ensures t in SplitTags(tags, lookup).plain <==> t in tags && t != "" && lookup(t).None?
    decreases |tags|
  {
    if tags != [] {
      var init := tags[..|tags| - 1];
      PlainTagMembership(init, lookup, t);
      assert tags == init + [tags[|tags| - 1]];
    }
  }

  /** An emoji is among the emoji tags exactly when some tag is an alias for it. */
  lemma {:induction false} EmojiTagMembership(tags: seq<string>, lookup: EmojiLookup, e: string)
    ensures e in SplitTags(tags, lookup).emoji <==>
            exists i :: 0 <= i < |tags| && lookup(tags[i]) == Some(e)
    decreases |tags|
  {
    if tags != [] {
      var init := tags[..|tags| - 1];
      EmojiTagMembership(init, lookup, e);
      if exists i :: 0 <= i < |tags| && lookup(tags[i]) == Some(e) {
        var i :| 0 <= i < |tags| && lookup(tags[i]) == Some(e);
        if i < |init| {
          assert lookup(init[i]) == Some(e);
        }
      }
      if exists i :: 0 <= i < |init| && lookup(init[i]) == Some(e) {
        var i :| 0 <= i < |init| && lookup(init[i]) == Some(e);
        assert lookup(tags[i]) == Some(e);
      }
    }
  }

  /**
    Every tag lands in exactly one list unless it is dropped: the two lists together are as
    long as the tags exactly when no tag is dropped, which holds when no tag is empty.
  */
  lemma {:induction false} SplitTagsKeepsAll(tags: seq<string>, lookup: EmojiLookup)
    ensures |SplitTags(tags, lookup).emoji| + |SplitTags(tags, lookup).plain| == |tags| <==>
            forall i :: 0 <= i < |tags| ==> !Route(tags[i], lookup).Dropped?
    ensures NoEmptyTags(tags) ==>
            |SplitTags(tags, lookup).emoji| + |SplitTags(tags, lookup).plain| == |tags|
    decreases |tags|
  {
    if tags != [] {
      var init := tags[..|tags| - 1];
      SplitTagsKeepsAll(init, lookup);
      assert forall i :: 0 <= i < |init| ==> init[i] == tags[i];
    }
  }

  // ---------------------------------------------------------------------------
  // Display strings
  // ---------------------------------------------------------------------------

  function SumLengths(tags: seq<string>): nat {
    if tags == [] then 0 else SumLengths(tags[..|tags| - 1]) + |tags[|tags| - 1]|
  }

  /** Every tag followed by `sep`, in order: the string the display loops accumulate. */
  function Suffixed(tags: seq<string>, sep: string): (r: string)
    ensures |r| == SumLengths(tags) + |tags| * |sep|
    decreases |tags|
  {
    if tags == [] then ""
    else Suffixed(tags[..|tags| - 1], sep) + tags[|tags| - 1] + sep
  }

  /** Reference join: `sep` between consecutive tags, none before the first or after the last. */
  function Joined(tags: seq<string>, sep: string): string
    decreases |tags|
  {
    if tags == [] then ""
    else if |tags| == 1 then tags[0]
    else tags[0] + sep + Joined(tags[1..], sep)
  }

  /** Swift's `dropLast(k)`: removes the last `k` characters, or all of a shorter string. */
  function DropLast(s: string, k: nat): string {
    if |s| >= k then s[..|s| - k] else ""
  }

  lemma {:induction false} JoinedSnoc(init: seq<string>, last: string, sep: string)
    requires init != []
    ensures Joined(init + [last], sep) == Joined(init, sep) + sep + last
    decreases |init|
  {
    if |init| == 1 {
      assert (init + [last])[1..] == [last];
    } else {
      assert (init + [last])[1..] == init[1..] + [last];
      JoinedSnoc(init[1..], last, sep);
    }
  }

  /** The accumulated string is the join with one separator left over at the end. */
  lemma {:induction false} SuffixedIsJoinedPlusSeparator(tags: seq<string>, sep: string)
    requires tags != []
    ensures Suffixed(tags, sep) == Joined(tags, sep) + sep
    decreases |tags|
  {
    var init := tags[..|tags| - 1];
    var last := tags[|tags| - 1];
    if init == [] {
      assert tags == [last];
    } else {
      SuffixedIsJoinedPlusSeparator(init, sep);
      JoinedSnoc(init, last, sep);
      assert tags == init + [last];
    }
  }

  /**
    Dropping the trailing separator from the accumulated string gives exactly the join,
    whose length is the total tag length plus one separator between each pair of tags.
  */
  lemma DropTrailingSeparatorIsJoin(tags: seq<string>, sep: string)
    ensures DropLast(Suffixed(tags, sep), |sep|) == Joined(tags, sep)
    ensures tags != [] ==> |Joined(tags, sep)| == SumLengths(tags) + (|tags| - 1) * |sep|
  {
    if tags != [] {
      SuffixedIsJoinedPlusSeparator(tags, sep);
      var j := Joined(tags, sep);
      assert (j + sep)[..|j + sep| - |sep|] == j;
    }
  }

  /** A join of non-empty tags is empty exactly when there are no tags. */
  lemma JoinedEmptyIff(tags: seq<string>, sep: string)
    requires NoEmptyTags(tags)
    ensures Joined(tags, sep) == "" <==> tags == []
  {
    if tags != [] {
      assert tags[0] != "";
      assert |tags| > 1 ==> Joined(tags, sep)[..|tags[0]|] == tags[0];
    }
  }

  /** `JoinedEmptyIff` for a list that may hold empty tags: then it says nothing. */
  lemma JoinedEmptyIffWhenNoEmptyTags(tags: seq<string>, sep: string)
    ensures NoEmptyTags(tags) ==> (Joined(tags, sep) == "" <==> tags == [])
  {
    if NoEmptyTags(tags) {
      JoinedEmptyIff(tags, sep);
    }
  }

  // ---------------------------------------------------------------------------
  // Decoding
  // ---------------------------------------------------------------------------

  /** The keys `init(from:)` reads from a message payload, each present or missing. */
  datatype Payload = Payload(
    id: Option<string>,
    topic: Option<string>,
    time: Option<int>,
    title: Option<string>,
    message: Option<string>,
    priority: Option<int>,
    tags: Option<seq<string>>)

  /** A required key was missing (Swift's `DecodingError.keyNotFound`). */
  datatype DecodeError = KeyNotFound(key: string)

  /** The field values decoding yields, before the notification object is built. */
  datatype Decoded = Decoded(
    id: string,
    topic: string,
    timestamp: int,
    title: string,
    message: string,
    priority: int,
    tags: seq<string>)

  /** The first required key, in reading order, that the payload lacks. */
  function FirstMissingKey(p: Payload): string {
    if p.id.None? then "id" else if p.topic.None? then "topic"
    else if p.time.None? then "time" else "message"
  }

  /**
    `id`, `topic`, `time` and `message` are required and read in that order; a missing
    `title` becomes "", a missing `priority` becomes 3 and missing `tags` become [].
  */
  function Decode(p: Payload): (r: Result<Decoded, DecodeError>)
    ensures r.Ok? <==> p.id.Some? && p.topic.Some? && p.time.Some? && p.message.Some?
    ensures r.Err? ==> r.error.key == FirstMissingKey(p)
    ensures r.Ok? ==> (r.value.id == p.id.value && r.value.topic == p.topic.value
                       && r.value.timestamp == p.time.value && r.value.message == p.message.value)
    ensures r.Ok? ==> ((p.title.None? ==> r.value.title == "")
                       && (p.title.Some? ==> r.value.title == p.title.value))
    ensures r.Ok? ==> ((p.priority.None? ==> r.value.priority == DEFAULT_PRIORITY)
                       && (p.priority.Some? ==> r.value.priority == p.priority.value))
    ensures r.Ok? ==> ((p.tags.None? ==> r.value.tags == [])
                       && (p.tags.Some? ==> r.value.tags == p.tags.value))
  {
    if p.id.None? then Err(KeyNotFound("id"))
    else if p.topic.None? then Err(KeyNotFound("topic"))
    else if p.time.None? then Err(KeyNotFound("time"))
    else if p.message.None? then Err(KeyNotFound("message"))
    else Ok(Decoded(p.id.value, p.topic.value, p.time.value, p.title.GetOr(""),
                    p.message.value, p.priority.GetOr(DEFAULT_PRIORITY), p.tags.GetOr([])))
  }

  /** The payload that carries every field of `d`. */
  function Encode(d: Decoded): Payload {
    Payload(Some(d.id), Some(d.topic), Some(d.timestamp), Some(d.title), Some(d.message),
            Some(d.priority), Some(d.tags))
  }

  /** A payload carrying every key decodes to exactly the values it carries. */
  lemma DecodeEncode(d: Decoded)
    ensures Decode(Encode(d)) == Ok(d)
  {
  }

  // ---------------------------------------------------------------------------
  // The notification object
  // ---------------------------------------------------------------------------

  class NtfyNotification {
    const id: string          // assigned once, by the initialisers
    var subscriptionId: int
    var timestamp: int
    var title: string
    var message: string
    var priority: int
    var tags: seq<string>
    var attachment: Attachment.NtfyAttachment?
    var emojiTags: seq<string>
    var nonEmojiTags: seq<string>

    /** The plain-tag list never holds an empty tag. */
    ghost predicate Valid()
      reads this
    {
      NoEmptyTags(nonEmojiTags)
    }

    /** `init(id:subscriptionId:timestamp:title:message:priority:tags:attachment:)`. */
    constructor (id: string, subscriptionId: int, timestamp: int, title: string, message: string,
                 priority: int := DEFAULT_PRIORITY, tags: seq<string> := [],
                 attachment: Attachment.NtfyAttachment?, lookup: EmojiLookup)
      ensures Valid()
      ensures this.id == id && this.subscriptionId == subscriptionId
      ensures this.timestamp == timestamp && this.title == title && this.message == message
      ensures this.priority == priority && this.tags == tags && this.attachment == attachment
      ensures TagSplit(emojiTags, nonEmojiTags) == SplitTags(tags, lookup)
    {
      this.id := id;
      this.subscriptionId := subscriptionId;
      this.timestamp := timestamp;
      this.title := title;
      this.message := message;
      this.priority := priority;
      this.tags := tags;
      this.attachment := attachment;
      emojiTags := [];
      nonEmojiTags := [];
      new;
      SetTags(lookup);
    }

    /**
      `init(from:)` once the payload has decoded: the subscription id found for the topic
      and the decoded attachment are passed in.
    */
    constructor FromDecoded(d: Decoded, subscriptionId: int,
                            attachment: Attachment.NtfyAttachment?, lookup: EmojiLookup)
      ensures Valid()
      ensures id == d.id && this.subscriptionId == subscriptionId && timestamp == d.timestamp
      ensures title == d.title && message == d.message && priority == d.priority
      ensures tags == d.tags && this.attachment == attachment
      ensures TagSplit(emojiTags, nonEmojiTags) == SplitTags(d.tags, lookup)
    {
      id := d.id;
      this.subscriptionId := subscriptionId;
      timestamp := d.timestamp;
      title := d.title;
      message := d.message;
      priority := d.priority;
      tags := d.tags;
      this.attachment := attachment;
      emojiTags := [];
      nonEmojiTags := [];
      new;
      SetTags(lookup);
    }

    /**
      Routes every tag: its emoji is appended to `emojiTags` when it has an alias, else the
      tag is appended to `nonEmojiTags` when non-empty. The lists are appended to, never reset.
    */
    method SetTags(lookup: EmojiLookup)
      requires Valid()
      modifies this`emojiTags, this`nonEmojiTags
      ensures Valid()
      ensures emojiTags == old(emojiTags) + SplitTags(tags, lookup).emoji
      ensures nonEmojiTags == old(nonEmojiTags) + SplitTags(tags, lookup).plain
    {
      for i := 0 to |tags|
        invariant emojiTags == old(emojiTags) + SplitTags(tags[..i], lookup).emoji
        invariant nonEmojiTags == old(nonEmojiTags) + SplitTags(tags[..i], lookup).plain
        invariant NoEmptyTags(nonEmojiTags)
      {
        var tag := tags[i];
        assert tags[..i + 1][..i] == tags[..i];
        match lookup(tag)
        case Some(emoji) =>
          emojiTags := emojiTags + [emoji];
        case None =>
          if tag != "" {
            nonEmojiTags := nonEmojiTags + [tag];
          }
      }
      assert tags[..|tags|] == tags;
    }

    /** `==`: two notifications are equal exactly when their ids are. */
    predicate Equals(other: NtfyNotification): (r: bool)
      ensures this == other ==> r
      ensures r <==> other.id == id
    {
      id == other.id
    }

    /**
      `hash(into:)` feeds only the id to the hasher, so the hash is a function of the id
      alone (see `EqualNotificationsHashAlike`).
    */
    function HashValue(hasher: string -> int): (r: int)
      ensures r == hasher(id)
    {
      hasher(id)
    }

    /** Whether there is an emoji to show: exactly when the emoji display is non-empty. */
    predicate HasEmojiTags(): (r: bool)
      reads this
      ensures r <==> Suffixed(emojiTags, EMOJI_SEPARATOR) != ""
    {
      |emojiTags| > 0
    }

    /** Whether there is a plain tag to show: exactly when the joined display is non-empty. */
    predicate HasNonEmojiTags(): (r: bool)
      reads this
      ensures Valid() ==> (r <==> Joined(nonEmojiTags, TAG_SEPARATOR) != "")
    {
      JoinedEmptyIffWhenNoEmptyTags(nonEmojiTags, TAG_SEPARATOR);
      |nonEmojiTags| > 0
    }

    /** Every emoji followed by one space. */
    method DisplayEmojiTags() returns (tagString: string)
      ensures tagString == Suffixed(emojiTags, EMOJI_SEPARATOR)
      ensures |tagString| == SumLengths(emojiTags) + |emojiTags|
      ensures tagString == "" <==> !HasEmojiTags()
    {
      tagString := "";
      for i := 0 to |emojiTags|
        invariant tagString == Suffixed(emojiTags[..i], EMOJI_SEPARATOR)
      {
        assert emojiTags[..i + 1][..i] == emojiTags[..i];
        tagString := tagString + emojiTags[i] + EMOJI_SEPARATOR;
      }
      assert emojiTags[..|emojiTags|] == emojiTags;
    }

    /** The plain tags joined by ", ", built by appending ", " to each and dropping the last. */
    method DisplayNonEmojiTags() returns (tagString: string)
      requires Valid()
      ensures tagString == Joined(nonEmojiTags, TAG_SEPARATOR)
      ensures HasNonEmojiTags() ==>
              |tagString| == SumLengths(nonEmojiTags) + 2 * (|nonEmojiTags| - 1)
      ensures tagString == "" <==> !HasNonEmojiTags()
    {
      tagString := "";
      for i := 0 to |nonEmojiTags|
        invariant tagString == Suffixed(nonEmojiTags[..i], TAG_SEPARATOR)
      {
        assert nonEmojiTags[..i + 1][..i] == nonEmojiTags[..i];
        tagString := tagString + nonEmojiTags[i] + TAG_SEPARATOR;
      }
      assert nonEmojiTags[..|nonEmojiTags|] == nonEmojiTags;
      if |tagString| > 0 {
        tagString := DropLast(tagString, 2);
      }
      DropTrailingSeparatorIsJoin(nonEmojiTags, TAG_SEPARATOR);
      JoinedEmptyIff(nonEmojiTags, TAG_SEPARATOR);
    }
  }

  /** Equality by id is an equivalence, whatever the other fields hold. */
  lemma EqualsIsEquivalence(a: NtfyNotification, b: NtfyNotification, c: NtfyNotification)
    ensures a.Equals(a)
    ensures a.Equals(b) ==> b.Equals(a)
    ensures a.Equals(b) && b.Equals(c) ==> a.Equals(c)
  {
  }

  /** Equal notifications hash alike, for every hasher. */
  lemma EqualNotificationsHashAlike(a: NtfyNotification, b: NtfyNotification, hasher: string -> int)
    requires a.Equals(b)
    ensures a.HashValue(hasher) == b.HashValue(hasher)
  {
  }
}
