/**
 * The message cache (src/cache.rs): per chat id, the message list sampled
 * last, and the check that decides which messages of a fresh sample are new.
 */
module MessageCache {
  import opened Wrappers
  import opened Chat
  import opened Sequences

  type Messages = seq<ChatMessage>

  // ---------------------------------------------------------------------------
  // Forward alignment
  // ---------------------------------------------------------------------------

  /**
   * The forward alignment of a new sample against the stored list: walking
   * the stored list from the front, a stored message that equals the next
   * unmatched message of the sample matches it. The result is how many
   * leading messages of the sample got matched.
   */
  function Align(oldMessages: Messages, newMessages: Messages): (n: nat)
    ensures n <= |oldMessages| && n <= |newMessages|
  {
    if oldMessages == [] then 0
    else
      var p := Align(oldMessages[..|oldMessages| - 1], newMessages);
      if p < |newMessages| && oldMessages[|oldMessages| - 1] == newMessages[p] then p + 1 else p
  }

  /** Looking at more of the stored list never matches fewer messages. */
  lemma {:induction false} AlignMonotone(oldMessages: Messages, newMessages: Messages, j: nat, k: nat)
    requires j <= k <= |oldMessages|
    ensures Align(oldMessages[..j], newMessages) <= Align(oldMessages[..k], newMessages)
    decreases k - j
  {
    if j < k {
      AlignMonotone(oldMessages, newMessages, j, k - 1);
      assert oldMessages[..k][..k - 1] == oldMessages[..k - 1];
    }
  }

  /** The matched leading messages of the sample occur, in order, in the stored list. */
  lemma {:induction false} AlignEmbeds(oldMessages: Messages, newMessages: Messages) returns (pos: seq<nat>)
    ensures Embeds(pos, newMessages[..Align(oldMessages, newMessages)], oldMessages)
  {
    if oldMessages == [] {
      pos := [];
    } else {
      var k := |oldMessages| - 1;
      var pre := oldMessages[..k];
      var p := Align(pre, newMessages);
      var before := AlignEmbeds(pre, newMessages);
      if p < |newMessages| && oldMessages[k] == newMessages[p] {
        pos := before + [k];
        assert newMessages[..p + 1] == newMessages[..p] + [newMessages[p]];
      } else {
        pos := before;
      }
    }
  }

  /**
   * The alignment is the longest possible: no longer prefix of the sample
   * occurs, in order, in the stored list.
   */
  lemma {:induction false} AlignIsLongest(oldMessages: Messages, newMessages: Messages, m: nat, pos: seq<nat>)
    requires m <= |newMessages|
    requires Embeds(pos, newMessages[..m], oldMessages)
    ensures m <= Align(oldMessages, newMessages)
  {
    if m == 0 {
    } else {
      assert pos[m - 1] < |oldMessages|;
      var k := |oldMessages| - 1;
      var pre := oldMessages[..k];
      if pos[m - 1] < k {
        assert Embeds(pos, newMessages[..m], pre);
        AlignIsLongest(pre, newMessages, m, pos);
      } else {
        var front := pos[..m - 1];
        assert Embeds(front, newMessages[..m - 1], pre) by {
          forall i | 0 <= i < m - 1 ensures front[i] < k {
            assert pos[i] < pos[m - 1];
          }
        }
        AlignIsLongest(pre, newMessages, m - 1, front);
        assert oldMessages[k] == newMessages[m - 1];
      }
    }
  }

  // ---------------------------------------------------------------------------
  // What `check` does, as a function of the map before the call
  // ---------------------------------------------------------------------------

  /** The map after a call to `check` and what the call returns. */
  datatype Checked = Checked(inner: map<string, Messages>, report: Option<Messages>)

  /** The sample runs out before the stored list does: all of it is matched within the stored list minus its last message. */
  predicate ShortSample(oldMessages: Messages, newMessages: Messages)
  {
    |oldMessages| > 1 && Align(oldMessages[..|oldMessages| - 1], newMessages) == |newMessages|
  }

  /** What a completed scan reports: the unmatched tail after a strong alignment, else at most the sample's last message. */
  function Report(oldMessages: Messages, newMessages: Messages): Option<Messages>
    requires oldMessages != [] && newMessages != []
  {
    var n := Align(oldMessages, newMessages);
    if n > 3 then Some(newMessages[n..])
    else if oldMessages[|oldMessages| - 1] != newMessages[|newMessages| - 1] then Some([newMessages[|newMessages| - 1]])
    else None
  }

  function CheckSpec(inner: map<string, Messages>, chatId: string, newMessages: Messages): Checked
  {
    if chatId !in inner || inner[chatId] == [] then Checked(inner[chatId := newMessages], None)
    else
      var oldMessages := inner[chatId];
      if newMessages == [] || newMessages == oldMessages || ShortSample(oldMessages, newMessages) then
        Checked(inner, None)
      else
        Checked(inner[chatId := newMessages], Report(oldMessages, newMessages))
  }

  // ---------------------------------------------------------------------------
  // The cache object
  // ---------------------------------------------------------------------------

  class Cache {
    var inner: map<string, Messages>
    /** The chat ids passed to `Check` since the cache was created. */
    ghost var seen: set<string>

    ghost predicate Valid()
      reads this
    {
      inner.Keys == seen
    }

    constructor ()
      ensures Valid() && inner == map[] && seen == {}
    {
      inner := map[];
      seen := {};
    }

    method Check(chatId: string, newMessages: Messages) returns (r: Option<Messages>)
      requires Valid()
      modifies this
      ensures Valid() && seen == old(seen) + {chatId}
      ensures Checked(inner, r) == CheckSpec(old(inner), chatId, newMessages)
    {
      seen := seen + {chatId};
      if chatId !in inner {
        inner := inner[chatId := newMessages];
        return None;
      }
      var oldMessages := inner[chatId];
      if |oldMessages| == 0 {
        inner := inner[chatId := newMessages];
        return None;
      }
      if |newMessages| == 0 {
        return None;
      }
      if newMessages == oldMessages {
        return None;
      }
      var newCount := 0;
      var oldCount := 0;
      var lastOld := oldMessages[|oldMessages| - 1];
      var lastNew := newMessages[|newMessages| - 1];
      while true
        invariant 0 <= newCount <= oldCount < |oldMessages| && newCount < |newMessages|
        invariant newCount == Align(oldMessages[..oldCount], newMessages)
        invariant inner == old(inner) && seen == old(seen) + {chatId}
        decreases |oldMessages| - oldCount
      {
        assert oldMessages[..oldCount + 1][..oldCount] == oldMessages[..oldCount];
        if oldMessages[oldCount] == newMessages[newCount] {
          newCount := newCount + 1;
        }
        oldCount := oldCount + 1;

        if oldCount == |oldMessages| {
          assert oldMessages[..oldCount] == oldMessages;
          assert !ShortSample(oldMessages, newMessages) by {
            assert oldMessages[..|oldMessages| - 1] == oldMessages[..oldCount - 1];
          }
          assert CheckSpec(old(inner), chatId, newMessages)
                 == Checked(inner[chatId := newMessages], Report(oldMessages, newMessages));
          inner := inner[chatId := newMessages];
          if newCount > 3 {
            return Some(newMessages[newCount..]);
          } else {
            if lastOld != lastNew {
              return Some([lastNew]);
            }
            return None;
          }
        }
        if newCount == |newMessages| {
          AlignMonotone(oldMessages, newMessages, oldCount, |oldMessages| - 1);
          assert ShortSample(oldMessages, newMessages);
          return None;
        }
      }
    }

    function CheckKey(key: string): (b: bool)
      reads this
      requires Valid()
      ensures b <==> key in seen
    {
      key in inner
    }

    function Size(): (n: nat)
      reads this
      requires Valid()
      ensures n == |seen|
    {
      |inner|
    }
  }

  // ---------------------------------------------------------------------------
  // Properties of `check`
  // ---------------------------------------------------------------------------

  /** First sight of a chat: the sample is stored as it is, nothing is reported, and one more chat is tracked. */
  lemma CheckUnseen(inner: map<string, Messages>, chatId: string, newMessages: Messages)
    requires chatId !in inner
    ensures var c := CheckSpec(inner, chatId, newMessages);
            && c.report == None && chatId in c.inner && c.inner[chatId] == newMessages
            && |c.inner| == |inner| + 1
  {
  }

  /** A stored empty list counts as unseen. */
  lemma CheckStoredEmpty(inner: map<string, Messages>, chatId: string, newMessages: Messages)
    requires chatId in inner && inner[chatId] == []
    ensures CheckSpec(inner, chatId, newMessages) == Checked(inner[chatId := newMessages], None)
  {
  }

  /** An empty sample against a non-empty stored list reports nothing and changes nothing. */
  lemma CheckEmptySample(inner: map<string, Messages>, chatId: string)
    requires chatId in inner && inner[chatId] != []
    ensures CheckSpec(inner, chatId, []) == Checked(inner, None)
  {
  }

  /** Checking the stored list again reports nothing and changes nothing. */
  lemma CheckIdempotent(inner: map<string, Messages>, chatId: string)
    requires chatId in inner
    ensures CheckSpec(inner, chatId, inner[chatId]) == Checked(inner, None)
  {
    assert inner[chatId := inner[chatId]] == inner;
  }

  /**
   * A sample that occurs, in order, inside the stored list without its last
   * message reports nothing, and the stored list is kept.
   */
  lemma CheckShortSample(inner: map<string, Messages>, chatId: string, newMessages: Messages, pos: seq<nat>)
    requires chatId in inner && |inner[chatId]| > 1 && newMessages != []
    requires Embeds(pos, newMessages, inner[chatId][..|inner[chatId]| - 1])
    ensures CheckSpec(inner, chatId, newMessages) == Checked(inner, None)
  {
    var oldMessages := inner[chatId];
    assert newMessages[..|newMessages|] == newMessages;
    AlignIsLongest(oldMessages[..|oldMessages| - 1], newMessages, |newMessages|, pos);
  }

  /**
   * Strong alignment: when more than three leading messages of the sample
   * are matched, the sample becomes the stored list and exactly the
   * messages after the longest matched prefix are reported (maybe none).
   */
  lemma CheckStrongAlignment(inner: map<string, Messages>, chatId: string, newMessages: Messages)
    requires chatId in inner && inner[chatId] != [] && newMessages != []
    requires newMessages != inner[chatId] && !ShortSample(inner[chatId], newMessages)
    requires Align(inner[chatId], newMessages) > 3
    ensures var c := CheckSpec(inner, chatId, newMessages);
            var n := Align(inner[chatId], newMessages);
            c == Checked(inner[chatId := newMessages], Some(newMessages[n..]))
            && newMessages[..n] + c.report.value == newMessages
  {
  }

  /**
   * Weak alignment: with at most three matched messages, the sample becomes
   * the stored list and only its last message is reported, and only when it
   * differs from the last stored one.
   */
  lemma CheckWeakAlignment(inner: map<string, Messages>, chatId: string, newMessages: Messages)
    requires chatId in inner && inner[chatId] != [] && newMessages != []
    requires newMessages != inner[chatId] && !ShortSample(inner[chatId], newMessages)
    requires Align(inner[chatId], newMessages) <= 3
    ensures var c := CheckSpec(inner, chatId, newMessages);
            var lastOld := inner[chatId][|inner[chatId]| - 1];
            var lastNew := newMessages[|newMessages| - 1];
            c.inner == inner[chatId := newMessages]
            && c.report == (if lastOld != lastNew then Some([lastNew]) else None)
  {
  }

  /**
   * `check` never removes a chat, tracks the one it is given, and leaves
   * every other chat's list alone; what it reports is always a suffix of the
   * sample.
   */
  lemma {:induction false} CheckFrame(inner: map<string, Messages>, chatId: string, newMessages: Messages)
    ensures var c := CheckSpec(inner, chatId, newMessages);
            && c.inner.Keys == inner.Keys + {chatId}
            && (forall k :: k in inner && k != chatId ==> c.inner[k] == inner[k])
            && (c.report.Some? ==>
                  c.inner[chatId] == newMessages && |c.report.value| <= |newMessages|
                  && c.report.value == newMessages[|newMessages| - |c.report.value|..])
  {
    var c := CheckSpec(inner, chatId, newMessages);
    if c.report.Some? {
      var oldMessages := inner[chatId];
      var n := Align(oldMessages, newMessages);
      if n <= 3 {
        assert c.report.value == newMessages[|newMessages| - 1..];
      }
    }
  }

  /** A sequence of checks tracks exactly the chat ids it was given. */
  function CheckAll(inner: map<string, Messages>, calls: seq<(string, Messages)>): map<string, Messages>
  {
    if calls == [] then inner
    else CheckSpec(CheckAll(inner, calls[..|calls| - 1]), calls[|calls| - 1].0, calls[|calls| - 1].1).inner
  }

  lemma {:induction false} CheckAllTracks(calls: seq<(string, Messages)>)
    ensures forall id :: id in CheckAll(map[], calls) <==> exists i :: 0 <= i < |calls| && calls[i].0 == id
  {
    if calls != [] {
      var pre := calls[..|calls| - 1];
      var last := calls[|calls| - 1];
      CheckAllTracks(pre);
      CheckFrame(CheckAll(map[], pre), last.0, last.1);
      forall id | id in CheckAll(map[], calls)
        ensures exists i :: 0 <= i < |calls| && calls[i].0 == id
      {
        if id != last.0 {
          var i :| 0 <= i < |pre| && pre[i].0 == id;
          assert calls[i].0 == id;
        }
      }
      forall id | exists i :: 0 <= i < |calls| && calls[i].0 == id
        ensures id in CheckAll(map[], calls)
      {
        var i :| 0 <= i < |calls| && calls[i].0 == id;
        if i < |pre| {
          assert pre[i].0 == id;
        }
      }
    }
  }

  // ---------------------------------------------------------------------------
  // Worked examples
  // ---------------------------------------------------------------------------

  /** Stored [A,B,C], sample [B,C,D,E]: only B and C match, so only E is reported, not D. */
  lemma WeakAlignmentExample(a: ChatMessage, b: ChatMessage, c: ChatMessage, d: ChatMessage, e: ChatMessage)
    requires a != b && a != c && b != c && c != e && a != e
    ensures CheckSpec(map["chat" := [a, b, c]], "chat", [b, c, d, e]).report == Some([e])
  {
    var o := [a, b, c];
    var s := [b, c, d, e];
    assert o[..0] == [];
    assert o[..1][..0] == [];
    assert o[..2][..1] == o[..1];
    assert o[..3][..2] == o[..2];
    assert Align(o[..1], s) == 0;
    assert Align(o[..2], s) == 1;
    assert o[..3] == o;
    assert Align(o, s) == 2;
  }

  /** Stored [A,B,C,D,E], sample [A,B,C,D,E,F,G]: all five match, so [F,G] is reported. */
  lemma StrongAlignmentExample(a: ChatMessage, b: ChatMessage, c: ChatMessage, d: ChatMessage,
                               e: ChatMessage, f: ChatMessage, g: ChatMessage)
    ensures CheckSpec(map["chat" := [a, b, c, d, e]], "chat", [a, b, c, d, e, f, g]).report == Some([f, g])
  {
    var o := [a, b, c, d, e];
    var s := [a, b, c, d, e, f, g];
    forall k | 0 <= k <= 5 ensures Align(o[..k], s) == k {
      AlignPrefixOfSample(o, s, k);
    }
    assert o[..5] == o;
    assert s[5..] == [f, g];
  }

  /** When the stored list is a prefix of the sample, each stored message matches. */
  lemma {:induction false} AlignPrefixOfSample(oldMessages: Messages, newMessages: Messages, k: nat)
    requires k <= |oldMessages| <= |newMessages| && oldMessages == newMessages[..|oldMessages|]
    ensures Align(oldMessages[..k], newMessages) == k
  {
    if k > 0 {
      AlignPrefixOfSample(oldMessages, newMessages, k - 1);
      assert oldMessages[..k][..k - 1] == oldMessages[..k - 1];
    }
  }
}
