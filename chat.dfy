/**
 * Chats and messages as the web client exposes them (src/chat.rs): the
 * message record, the rule that turns the text of scraped message elements
 * into messages, the cleanup pass and the truncated Debug view.
 */
module Chat {
  import opened Wrappers

  /** A message found in a chat. Equality is structural over the three fields. */
  datatype ChatMessage = ChatMessage(sender: string, content: string, chatId: string)

  /** A chat found on the sidebar; the page element it was found in is left out. */
  datatype ChatOption = ChatOption(id: string, unread: bool)

  // ---------------------------------------------------------------------------
  // Splitting on a separator character (Rust's `str::split(char)`)
  // ---------------------------------------------------------------------------

  /** The number of occurrences of `c` in `s`. */
  function Count(s: string, c: char): nat
  {
    if s == [] then 0 else (if s[0] == c then 1 else 0) + Count(s[1..], c)
  }

  /** The parts of `s` between occurrences of `sep`, left to right; `""` has one part. */
  function Split(s: string, sep: char): (parts: seq<string>)
    ensures |parts| >= 1
    ensures forall i :: 0 <= i < |parts| ==> sep !in parts[i]
    decreases |s|
  {
    if s == [] then [[]]
    else if s[0] == sep then [[]] + Split(s[1..], sep)
    else
      var rest := Split(s[1..], sep);
      [[s[0]] + rest[0]] + rest[1..]
  }

  /** The parts put back together with `sep` between neighbours. */
  function Join(parts: seq<string>, sep: char): string
    requires |parts| >= 1
  {
    if |parts| == 1 then parts[0] else parts[0] + [sep] + Join(parts[1..], sep)
  }

  /** Splitting loses nothing, and there is one part more than there are separators. */
  lemma {:induction false} SplitJoin(s: string, sep: char)
    ensures Join(Split(s, sep), sep) == s
    ensures |Split(s, sep)| == Count(s, sep) + 1
    decreases |s|
  {
    PartsCount(s, sep);
    if s != [] {
      SplitJoin(s[1..], sep);
      var rest := Split(s[1..], sep);
      if s[0] == sep {
        var parts := [[]] + rest;
        assert Split(s, sep) == parts && parts[1..] == rest;
        assert s == [sep] + s[1..];
      } else {
        assert Split(s, sep) == [[s[0]] + rest[0]] + rest[1..];
        JoinConsHead(s[0], rest, sep);
        assert s == [s[0]] + s[1..];
      }
    }
  }

  lemma {:induction false} PartsCount(s: string, sep: char)
    ensures |Split(s, sep)| == Count(s, sep) + 1
    decreases |s|
  {
    if s != [] {
      PartsCount(s[1..], sep);
    }
  }

  /** Prefixing the first part prefixes the joined string. */
  lemma JoinConsHead(c: char, parts: seq<string>, sep: char)
    requires |parts| >= 1
    ensures Join([[c] + parts[0]] + parts[1..], sep) == [c] + Join(parts, sep)
  {
    var q := [[c] + parts[0]] + parts[1..];
    if |parts| > 1 {
      assert q[1..] == parts[1..];
      assert Join(q, sep) == [c] + parts[0] + [sep] + Join(parts[1..], sep);
    }
  }

  // ---------------------------------------------------------------------------
  // Trimming (Rust's `str::trim`)
  // ---------------------------------------------------------------------------

  /** Rust's `char::is_whitespace`: the characters with the Unicode White_Space property. */
  predicate IsWhitespace(c: char)
  {
    || ('\U{0009}' <= c <= '\U{000D}')
    || c == ' ' || c == '\U{0085}' || c == '\U{00A0}' || c == '\U{1680}'
    || ('\U{2000}' <= c <= '\U{200A}')
    || c == '\U{2028}' || c == '\U{2029}' || c == '\U{202F}' || c == '\U{205F}' || c == '\U{3000}'
  }

  /** The number of whitespace characters `s` starts with. */
  function Leading(s: string): (k: nat)
    ensures k <= |s|
    ensures forall i :: 0 <= i < k ==> IsWhitespace(s[i])
    ensures k == |s| || !IsWhitespace(s[k])
  {
    if s != [] && IsWhitespace(s[0]) then 1 + Leading(s[1..]) else 0
  }

  /** The number of whitespace characters `s` ends with. */
  function Trailing(s: string): (k: nat)
    ensures k <= |s|
    ensures forall i :: |s| - k <= i < |s| ==> IsWhitespace(s[i])
    ensures k == |s| || !IsWhitespace(s[|s| - k - 1])
  {
    if s != [] && IsWhitespace(s[|s| - 1]) then 1 + Trailing(s[..|s| - 1]) else 0
  }

  /** Rust's `str::trim_start`. */
  function TrimStart(s: string): (r: string)
    ensures |r| <= |s| && r == s[|s| - |r|..]
    ensures r == [] || !IsWhitespace(r[0])
    ensures forall i :: 0 <= i < |s| - |r| ==> IsWhitespace(s[i])
  {
    s[Leading(s)..]
  }

  /** Rust's `str::trim_end`. */
  function TrimEnd(s: string): (r: string)
    ensures |r| <= |s| && r == s[..|r|]
    ensures r == [] || !IsWhitespace(r[|r| - 1])
    ensures forall i :: |r| <= i < |s| ==> IsWhitespace(s[i])
  {
    s[..|s| - Trailing(s)]
  }

  /** `s` without its leading and trailing whitespace: a slice of `s` with only whitespace around it. */
  function Trim(s: string): (r: string)
    ensures r == [] || (!IsWhitespace(r[0]) && !IsWhitespace(r[|r| - 1]))
    ensures Leading(s) + |r| <= |s| && r == s[Leading(s)..Leading(s) + |r|]
    ensures forall i :: 0 <= i < Leading(s) ==> IsWhitespace(s[i])
    ensures forall i :: Leading(s) + |r| <= i < |s| ==> IsWhitespace(s[i])
  {
    var k := Leading(s);
    var t := s[k..];
    var n := Trailing(t);
    var r := t[..|t| - n];
    assert r == s[k..k + |r|];
    assert r != [] ==> r[0] == s[k] && r[|r| - 1] == t[|t| - n - 1];
    forall i | k + |r| <= i < |s| ensures IsWhitespace(s[i]) {
      assert s[i] == t[i - k];
    }
    r
  }

  /** Only one count satisfies the contract of `Leading`. */
  lemma LeadingUnique(s: string, k: nat)
    requires k <= |s| && (k == |s| || !IsWhitespace(s[k]))
    requires forall i :: 0 <= i < k ==> IsWhitespace(s[i])
    ensures Leading(s) == k
  {
  }

  /** `trim` is `trim_start` then `trim_end`, and equally `trim_end` then `trim_start`. */
  lemma TrimIsStartThenEnd(s: string)
    ensures Trim(s) == TrimEnd(TrimStart(s))
    ensures Trim(s) == TrimStart(TrimEnd(s))
  {
    TrimEndThenStart(s);
  }

  lemma TrimEndThenStart(s: string)
    ensures Trim(s) == TrimStart(TrimEnd(s))
  {
    var k := Leading(s);
    var e := TrimEnd(s);
    if k == |s| {
      assert Leading(e) == |e| by { LeadingUnique(e, |e|); }
    } else {
      var t := s[k..];
      var n := Trailing(s);
      TrailingOfSuffix(s, k);
      LeadingBeforeTrailing(s);
      assert Trim(s) == t[..|t| - n];
      assert e[k..] == t[..|t| - n];
    }
  }

  /** A suffix that keeps a non-whitespace character ends with the same whitespace. */
  lemma {:induction false} TrailingOfSuffix(s: string, k: nat)
    requires k < |s| && !IsWhitespace(s[k])
    ensures Trailing(s) < |s| - k && Trailing(s[k..]) == Trailing(s)
    decreases |s|
  {
    var last := |s| - 1;
    assert s[k..][|s| - k - 1] == s[last];
    if k < last && IsWhitespace(s[last]) {
      var p := s[..last];
      assert p[k] == s[k];
      TrailingOfSuffix(p, k);
      assert s[k..][..|s| - k - 1] == p[k..];
    }
  }

  /** Cutting the trailing whitespace of a string that is not all whitespace keeps its leading whitespace. */
  lemma LeadingBeforeTrailing(s: string)
    requires Leading(s) < |s|
    ensures Leading(TrimEnd(s)) == Leading(s)
  {
    var k := Leading(s);
    var e := TrimEnd(s);
    assert e[k] == s[k];
    forall i | 0 <= i < k ensures IsWhitespace(e[i]) {
      assert e[i] == s[i];
    }
    LeadingUnique(e, k);
  }

  // ---------------------------------------------------------------------------
  // Extracting messages from the text of scraped elements (src/chat.rs:112-134)
  // ---------------------------------------------------------------------------

  /** The content one blob of element text contributes, if its comma split has 4 or 2 parts. */
  function BlobContent(blob: string): (c: Option<string>)
  {
    var parts := Split(blob, ',');
    if |parts| == 4 then Some(Trim(parts[2]))
    else if |parts| == 2 then Some(Trim(parts[0]))
    else None
  }

  /** The sender a blob names: only a 4-part blob names one. */
  function NamedSender(blob: string): (s: Option<string>)
  {
    var parts := Split(blob, ',');
    if |parts| == 4 then Some(Trim(parts[0])) else None
  }

  /**
   * The sender in force after the given blobs: the one named by the last
   * blob that names one, or the empty string when none does.
   */
  function CarriedSender(blobs: seq<string>): (s: string)
  {
    if blobs == [] then ""
    else match NamedSender(blobs[|blobs| - 1])
      case Some(named) => named
      case None => CarriedSender(blobs[..|blobs| - 1])
  }

  /** Whether blob `k` yields a message: it has content and the sender then in force is neither empty nor "You". */
  predicate Kept(blobs: seq<string>, k: nat)
    requires k < |blobs|
  {
    var sender := CarriedSender(blobs[..k + 1]);
    BlobContent(blobs[k]).Some? && sender != "" && sender != "You"
  }

  /** The message blob `k` yields when it is kept. */
  function MessageAt(blobs: seq<string>, k: nat, chatId: string): ChatMessage
    requires k < |blobs| && Kept(blobs, k)
  {
    ChatMessage(CarriedSender(blobs[..k + 1]), BlobContent(blobs[k]).value, chatId)
  }

  /** The messages the blobs yield, in blob order. */
  function Extracted(blobs: seq<string>, chatId: string): seq<ChatMessage>
  {
    if blobs == [] then []
    else
      var k := |blobs| - 1;
      Extracted(blobs[..k], chatId) + (if Kept(blobs, k) then [MessageAt(blobs, k, chatId)] else [])
  }

  /** Extending the blobs by one: the sender in force and the messages after blob `i`. */
  lemma ExtractedStep(blobs: seq<string>, i: nat, chatId: string)
    requires i < |blobs|
    ensures CarriedSender(blobs[..i + 1]) ==
              if NamedSender(blobs[i]).Some? then NamedSender(blobs[i]).value else CarriedSender(blobs[..i])
    ensures Extracted(blobs[..i + 1], chatId) ==
              Extracted(blobs[..i], chatId) +
              (if Kept(blobs, i) then [MessageAt(blobs, i, chatId)] else [])
  {
    var p := blobs[..i + 1];
    assert p[..i] == blobs[..i];
    assert p[i] == blobs[i];
    assert p[..i + 1] == blobs[..i + 1];
  }

  /** The extraction loop of `ChatMessage::get`, over the text of the elements already scraped. */
  method ExtractMessages(blobs: seq<string>, chatId: string) returns (res: seq<ChatMessage>)
    ensures res == Extracted(blobs, chatId)
  {
    res := [];
    var sender := "";
    for i := 0 to |blobs|
      invariant sender == CarriedSender(blobs[..i])
      invariant res == Extracted(blobs[..i], chatId)
    {
      ExtractedStep(blobs, i, chatId);
      var lines := Split(blobs[i], ',');
      var content;
      if |lines| == 4 {
        sender := Trim(lines[0]);
        content := Trim(lines[2]);
      } else if |lines| == 2 {
        content := Trim(lines[0]);
      } else {
        continue;
      }
      assert sender == CarriedSender(blobs[..i + 1]);
      assert BlobContent(blobs[i]) == Some(content);
      if sender == "" || sender == "You" {
        continue;
      }
      res := res + [ChatMessage(sender, content, chatId)];
    }
    assert blobs[..|blobs|] == blobs;
  }

  /** A 4-part blob makes its trimmed first part the sender in force. */
  lemma FourPartsNameSender(blobs: seq<string>, blob: string)
    requires |Split(blob, ',')| == 4
    ensures CarriedSender(blobs + [blob]) == Trim(Split(blob, ',')[0])
    ensures BlobContent(blob) == Some(Trim(Split(blob, ',')[2]))
  {
  }

  /** Any other blob leaves the sender in force as it was; a 2-part blob still yields its first part. */
  lemma OtherPartsKeepSender(blobs: seq<string>, blob: string)
    requires |Split(blob, ',')| != 4
    ensures CarriedSender(blobs + [blob]) == CarriedSender(blobs)
    ensures BlobContent(blob) == if |Split(blob, ',')| == 2 then Some(Trim(Split(blob, ',')[0])) else None
  {
    assert (blobs + [blob])[..|blobs|] == blobs;
  }

  /** Whether blob `k` is kept, and the message it yields, depend only on the blobs before `n` when `k < n`. */
  lemma KeptAt(blobs: seq<string>, n: nat, k: nat, chatId: string)
    requires k < n <= |blobs|
    ensures Kept(blobs[..n], k) == Kept(blobs, k)
    ensures Kept(blobs, k) ==> MessageAt(blobs[..n], k, chatId) == MessageAt(blobs, k, chatId)
  {
    assert blobs[..n][..k + 1] == blobs[..k + 1];
  }

  /** No extracted message has an empty sender or the sender "You", and all carry the chat id asked for. */
  lemma {:induction false} ExtractedFiltered(blobs: seq<string>, chatId: string)
    ensures forall i :: 0 <= i < |Extracted(blobs, chatId)| ==>
              var m := Extracted(blobs, chatId)[i];
              m.sender != "" && m.sender != "You" && m.chatId == chatId
  {
    if blobs != [] {
      ExtractedFiltered(blobs[..|blobs| - 1], chatId);
    }
  }

  /**
   * `idx` lists, increasing, the blobs the messages `msgs` come from: each
   * message is the one its blob yields, and every kept blob is listed.
   */
  ghost predicate Origins(blobs: seq<string>, chatId: string, msgs: seq<ChatMessage>, idx: seq<nat>)
  {
    && |idx| == |msgs|
    && (forall i, j :: 0 <= i < j < |idx| ==> idx[i] < idx[j])
    && (forall i :: 0 <= i < |idx| ==>
          idx[i] < |blobs| && Kept(blobs, idx[i]) && msgs[i] == MessageAt(blobs, idx[i], chatId))
    && (forall k :: 0 <= k < |blobs| && Kept(blobs, k) ==> k in idx)
  }

  /** The extracted messages are exactly the messages of the kept blobs, in blob order. */
  lemma {:induction false} ExtractedOrigins(blobs: seq<string>, chatId: string) returns (idx: seq<nat>)
    ensures Origins(blobs, chatId, Extracted(blobs, chatId), idx)
  {
    if blobs == [] {
      idx := [];
    } else {
      var n := |blobs| - 1;
      var before := ExtractedOrigins(blobs[..n], chatId);
      idx := OriginsStep(blobs, chatId, before);
    }
  }

  lemma OriginsStep(blobs: seq<string>, chatId: string, before: seq<nat>) returns (idx: seq<nat>)
    requires blobs != []
    requires Origins(blobs[..|blobs| - 1], chatId, Extracted(blobs[..|blobs| - 1], chatId), before)
    ensures Origins(blobs, chatId, Extracted(blobs, chatId), idx)
  {
    var n := |blobs| - 1;
    var pre := blobs[..n];
    var msgs := Extracted(pre, chatId);
    forall i | 0 <= i < |before|
      ensures before[i] < n && Kept(blobs, before[i]) && msgs[i] == MessageAt(blobs, before[i], chatId)
    {
      KeptAt(blobs, n, before[i], chatId);
    }
    forall k | 0 <= k < n && Kept(blobs, k)
      ensures k in before
    {
      KeptAt(blobs, n, k, chatId);
    }
    if Kept(blobs, n) {
      idx := before + [n];
      var all := msgs + [MessageAt(blobs, n, chatId)];
      assert Extracted(blobs, chatId) == all;
      forall i | 0 <= i < |idx|
        ensures idx[i] < |blobs| && Kept(blobs, idx[i]) && all[i] == MessageAt(blobs, idx[i], chatId)
      {
        if i < |before| {
          assert idx[i] == before[i] && all[i] == msgs[i];
        }
      }
      forall k | 0 <= k < |blobs| && Kept(blobs, k)
        ensures k in idx
      {
        if k < n {
          assert k in before;
        } else {
          assert idx[|before|] == k;
        }
      }
      assert Origins(blobs, chatId, all, idx);
    } else {
      idx := before;
      assert Extracted(blobs, chatId) == msgs;
      forall k | 0 <= k < |blobs| && Kept(blobs, k)
        ensures k in idx
      {
        if k == n {
          assert false;
        }
      }
      assert Origins(blobs, chatId, msgs, idx);
    }
  }

  // ---------------------------------------------------------------------------
  // Cleanup (src/chat.rs:140-142) and the Debug view (src/chat.rs:154-166)
  // ---------------------------------------------------------------------------

  /**
   * The cleanup pass: the content goes through the transliteration
   * `unidecode`, which stays a parameter of the model.
   */
  function Clean(m: ChatMessage, unidecode: string -> string): (r: ChatMessage)
    ensures r.sender == m.sender && r.chatId == m.chatId && r.content == unidecode(m.content)
  {
    m.(content := unidecode(m.content))
  }

  /** The number of characters of content the Debug view shows before it truncates. */
  const DebugLimit: nat := 50

  /** The content as the Debug view shows it: unchanged up to 50 characters, else its first 50 and "...". */
  function DebugText(content: string): (msg: string)
    ensures |content| <= DebugLimit ==> msg == content
    ensures |content| > DebugLimit ==> msg == content[..DebugLimit] + "..."
    ensures |msg| <= DebugLimit + 3
  {
    if |content| > DebugLimit then content[..DebugLimit] + "..." else content
  }

  /** The fields the Debug view shows: the (truncated) content and the chat id, never the sender. */
  datatype MsgView = Msg(msg: string, chatId: string)

  function Debug(m: ChatMessage): (v: MsgView)
    ensures v.msg == DebugText(m.content) && v.chatId == m.chatId
  {
    Msg(DebugText(m.content), m.chatId)
  }
}
