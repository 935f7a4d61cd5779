/**
 * The main loop of a run (`entry`, src/main.rs:115-289): each cycle polls
 * the chat list, admits chats to processing, samples the first admitted
 * chat, fans out what the cache reports as new, and then dispatches at most
 * one client request. Every call into the browser is replaced by the reply
 * a `Replies` record holds for it, and the calls made are logged, in order.
 */
module Orchestrator {
  import opened Wrappers
  import opened Chat
  import opened Sequences
  import opened MessageCache
  import Relay

  /** Rust's `u8`, the type of the error counter. */
  newtype u8 = x: int | 0 <= x < 256

  /** A run tolerates this many counted failures; the next one ends it. */
  const ErrorBudget: u8 := 10

  /** A chat that is not unread is admitted only while fewer chats than this are tracked. */
  const TrackingCap: nat := 20

  /** The browser calls a cycle can make. */
  datatype Call =
    | GetChats
    | ClickChat(id: string)
    | Refresh
    | FindMarkRead(id: string)
    | ClickMarkRead(id: string)
    | GetMessages(id: string)
    | ScreenshotLog
    | HtmlLog
    | GoToChat(id: string)
    | SendMessage(content: string)

  /** The failures that are counted against the error budget. */
  predicate Counted(c: Call)
  {
    c.GetChats? || c.GetMessages? || c.ScreenshotLog? || c.HtmlLog? || c.GoToChat? || c.SendMessage?
  }

  /** How a run ends: `Ok` for a requested restart, `Err` with the call whose failure ended it. */
  datatype Exit = Ok | Err(failed: Call)

  /** The "Mark as read" button of the chat being processed. */
  datatype MarkRead = Absent | Clicked | ClickFailed

  /**
   * The replies one cycle gets: how many clients connected since the last
   * cycle, the chat list (None when it cannot be read),
   * whether clicking the first admitted chat works and, if not, whether the
   * page refresh does, the mark-as-read button, the message sample, the
   * connections whose queues are gone, the requests the connection tasks
   * have queued since the last cycle, and the outcome of each call a
   * dispatched request makes.
   */
  datatype Replies = Replies(
    accepted: nat,
    chats: Option<seq<ChatOption>>,
    clickOk: bool,
    recoverOk: bool,
    markRead: MarkRead,
    messages: Option<Messages>,
    dead: set<Relay.Conn>,
    arrivals: Messages,
    diagnosticOk: bool,
    refreshOk: bool,
    goToOk: bool,
    sendOk: bool)

  /**
   * The state a run carries from cycle to cycle: the error counter and the
   * counted failures it has logged, the cache contents, the registry of
   * outbound queues with what each has accepted, the queued requests, and
   * the browser calls made so far.
   */
  datatype World = World(
    errorCount: nat,
    failures: seq<Call>,
    inner: map<string, Messages>,
    senders: seq<Relay.Conn>,
    delivered: map<Relay.Conn, Messages>,
    next: Relay.Conn,
    pending: Messages,
    calls: seq<Call>)

  datatype Outcome = Outcome(w: World, exit: Option<Exit>)

  /** The state every run starts in. */
  const Fresh := World(0, [], map[], [], map[], 0, [], [])

  // ---------------------------------------------------------------------------
  // Admission
  // ---------------------------------------------------------------------------

  predicate Admissible(c: ChatOption, tracked: set<string>)
  {
    c.unread || (c.id !in tracked && |tracked| < TrackingCap)
  }

  /** The chats the `retain` of src/main.rs:144 keeps, in list order. */
  function Admitted(chats: seq<ChatOption>, tracked: set<string>): seq<ChatOption>
  {
    Filter(chats, (c: ChatOption) => Admissible(c, tracked))
  }

  /** Admitting from one chat more. */
  lemma AdmittedStep(chats: seq<ChatOption>, tracked: set<string>, i: nat)
    requires i < |chats|
    ensures Admitted(chats[..i + 1], tracked)
            == Admitted(chats[..i], tracked) + (if Admissible(chats[i], tracked) then [chats[i]] else [])
  {
    FilterStep(chats, (c: ChatOption) => Admissible(c, tracked), i);
  }

  /**
   * A chat is admitted exactly when it is in the list and is unread or, while
   * fewer than 20 chats are tracked, untracked; the admitted chats keep
   * their order.
   */
  lemma AdmittedSpec(chats: seq<ChatOption>, tracked: set<string>) returns (pos: seq<nat>)
    ensures forall c :: c in Admitted(chats, tracked) <==>
              c in chats && (c.unread || (c.id !in tracked && |tracked| < TrackingCap))
    ensures Embeds(pos, Admitted(chats, tracked), chats)
    ensures forall k :: 0 <= k < |chats| && Admissible(chats[k], tracked) ==> k in pos
  {
    FilterMembers(chats, (c: ChatOption) => Admissible(c, tracked));
    pos := FilterEmbeds(chats, (c: ChatOption) => Admissible(c, tracked));
  }

  /** Once 20 chats are tracked only unread chats are admitted. */
  lemma AdmissionCap(chats: seq<ChatOption>, tracked: set<string>)
    requires |tracked| >= TrackingCap
    ensures forall c :: c in Admitted(chats, tracked) ==> c.unread
  {
    var _ := AdmittedSpec(chats, tracked);
  }

  // ---------------------------------------------------------------------------
  // Requests
  // ---------------------------------------------------------------------------

  /** What a queued request asks for, decided by its `sender` field. */
  datatype Request =
    | TakeScreenshot
    | DumpHtml
    | Restart
    | RefreshPage
    | SendFile
    | SendText(chatId: string, content: string)

  const Sentinels: set<string> := {"<screenshot>", "<html>", "<restart>", "<refresh>", "<file>"}

  /** The match of src/main.rs:214: a sentinel sender names a command, any other sender asks for its content to be sent. */
  function Classify(m: ChatMessage): (r: Request)
    ensures r.SendText? <==> m.sender !in Sentinels
    ensures r.SendText? ==> r.chatId == m.chatId && r.content == m.content
    ensures r == Restart <==> m.sender == "<restart>"
    ensures r == SendFile <==> m.sender == "<file>"
    ensures r == TakeScreenshot <==> m.sender == "<screenshot>"
    ensures r == DumpHtml <==> m.sender == "<html>"
    ensures r == RefreshPage <==> m.sender == "<refresh>"
  {
    if m.sender == "<screenshot>" then TakeScreenshot
    else if m.sender == "<html>" then DumpHtml
    else if m.sender == "<restart>" then Restart
    else if m.sender == "<refresh>" then RefreshPage
    else if m.sender == "<file>" then SendFile
    else SendText(m.chatId, m.content)
  }

  // ---------------------------------------------------------------------------
  // One cycle, as a function of the state and the replies
  // ---------------------------------------------------------------------------

  /** A counted failure: the counter goes up, and the run ends once it exceeds the budget. */
  function Fail(w: World, call: Call): Outcome
  {
    var w' := w.(errorCount := w.errorCount + 1, failures := w.failures + [call]);
    Outcome(w', if w'.errorCount > ErrorBudget as nat then Some(Err(call)) else None)
  }

  /** `msg` offered to every registered queue: the ones that fail are dropped. */
  function Offer(w: World, msg: ChatMessage, dead: set<Relay.Conn>): World
  {
    w.(senders := Relay.Survivors(w.senders, dead),
       delivered := Relay.Delivered(w.delivered, w.senders, dead, msg))
  }

  /** Each reported message offered in turn. */
  function FanOut(w: World, news: Messages, dead: set<Relay.Conn>): World
  {
    if news == [] then w else Offer(FanOut(w, news[..|news| - 1], dead), news[|news| - 1], dead)
  }

  /** The polling half of a cycle (src/main.rs:129-210). */
  function PollSpec(w: World, r: Replies): Outcome
  {
    var w := w.(calls := w.calls + [GetChats]);
    match r.chats
    case None => Fail(w, GetChats)
    case Some(chats) =>
      var admitted := Admitted(chats, w.inner.Keys);
      if admitted == [] then Outcome(w, None) else Process(w, admitted[0].id, r)
  }

  /** Processing the first admitted chat. */
  function Process(w: World, id: string, r: Replies): Outcome
  {
    var w := w.(calls := w.calls + [ClickChat(id)] + (if r.clickOk then [] else [Refresh]));
    if !r.clickOk && !r.recoverOk then Outcome(w, Some(Err(Refresh)))
    else
      var w := w.(calls := w.calls + [FindMarkRead(id)] + (if r.markRead.Absent? then [] else [ClickMarkRead(id)]));
      if r.markRead.ClickFailed? then Outcome(w, Some(Err(ClickMarkRead(id))))
      else
        var w := w.(calls := w.calls + [GetMessages(id)]);
        match r.messages
        case None => Fail(w, GetMessages(id))
        case Some(sample) => Outcome(Sampled(w, id, sample, r.dead), None)
  }

  /** A sample checked against the cache, and whatever the check reports fanned out (src/main.rs:195-208). */
  function Sampled(w: World, id: string, sample: Messages, dead: set<Relay.Conn>): World
  {
    var c := CheckSpec(w.inner, id, sample);
    var w := w.(inner := c.inner);
    match c.report
    case None => w
    case Some(news) => FanOut(w, news, dead)
  }

  /** The dispatch half of a cycle (src/main.rs:213-285): at most one queued request is served. */
  function DispatchSpec(w: World, r: Replies): Outcome
  {
    var queue := w.pending + r.arrivals;
    if queue == [] then Outcome(w.(pending := []), None)
    else
      var w := w.(pending := queue[1..]);
      match Classify(queue[0])
      case TakeScreenshot =>
        var w := w.(calls := w.calls + [ScreenshotLog]);
        if r.diagnosticOk then Outcome(w, None) else Fail(w, ScreenshotLog)
      case DumpHtml =>
        var w := w.(calls := w.calls + [HtmlLog]);
        if r.diagnosticOk then Outcome(w, None) else Fail(w, HtmlLog)
      case Restart => Outcome(w, Some(Ok))
      case RefreshPage =>
        var w := w.(calls := w.calls + [Refresh]);
        if r.refreshOk then Outcome(w, None) else Outcome(w, Some(Err(Refresh)))
      case SendFile => Outcome(w, None)
      case SendText(chatId, content) =>
        var w := w.(calls := w.calls + [GoToChat(chatId)]);
        if !r.goToOk then Fail(w, GoToChat(chatId))
        else
          var w := w.(calls := w.calls + [SendMessage(content)]);
          if r.sendOk then Outcome(w, None) else Fail(w, SendMessage(content))
  }

  /** A newly accepted connection joins the registry under the next unused handle (src/main.rs:50-55). */
  function Join(w: World): World
  {
    w.(senders := w.senders + [w.next], delivered := w.delivered[w.next := []], next := w.next + 1)
  }

  /** The `n` connections accepted since the last cycle, joined in the order they came. */
  function Connect(w: World, n: nat): World
  {
    if n == 0 then w else Join(Connect(w, n - 1))
  }

  /**
   * Joining `n` connections touches only the registry: they are appended to
   * the senders with the next `n` handles and nothing delivered, and every
   * queue registered before keeps what it has accepted.
   */
  lemma {:induction false} ConnectSpec(w: World, n: nat)
    ensures var v := Connect(w, n);
            && v.errorCount == w.errorCount && v.failures == w.failures && v.inner == w.inner
            && v.pending == w.pending && v.calls == w.calls
            && v.next == w.next + n
            && |v.senders| == |w.senders| + n && v.senders[..|w.senders|] == w.senders
            && (forall i :: |w.senders| <= i < |v.senders| ==> v.senders[i] == w.next + (i - |w.senders|))
            && (forall c :: w.next <= c < w.next + n ==> c in v.delivered && v.delivered[c] == [])
            && (forall c :: c in w.delivered && c < w.next ==> c in v.delivered && v.delivered[c] == w.delivered[c])
  {
    if n > 0 {
      ConnectSpec(w, n - 1);
      var u := Connect(w, n - 1);
      assert u.senders + [u.next] == Connect(w, n).senders;
      assert (u.senders + [u.next])[..|w.senders|] == u.senders[..|w.senders|];
    }
  }

  /** One pass of the main loop, after the connections accepted meanwhile have joined. */
  function CycleSpec(w: World, r: Replies): Outcome
  {
    var p := PollSpec(Connect(w, r.accepted), r);
    if p.exit.Some? then p else DispatchSpec(p.w, r)
  }

  /** The cycles of a run, until one of them ends it. */
  function RunSpec(w: World, rs: seq<Replies>): Outcome
    decreases |rs|
  {
    if rs == [] then Outcome(w, None)
    else
      var o := CycleSpec(w, rs[0]);
      if o.exit.Some? then o else RunSpec(o.w, rs[1..])
  }

  // ---------------------------------------------------------------------------
  // Properties of a cycle and of a run
  // ---------------------------------------------------------------------------

  /** The error counter counts the logged failures, all of them counted kinds. */
  ghost predicate Budgeted(w: World)
  {
    w.errorCount == |w.failures| && forall i :: 0 <= i < |w.failures| ==> Counted(w.failures[i])
  }

  /** The run ends with a counted failure. */
  predicate CountedExit(exit: Option<Exit>)
  {
    exit.Some? && exit.value.Err? && Counted(exit.value.failed)
  }

  /**
   * What one half of a cycle does to the budget: either nothing, and then it
   * does not end the run with a counted failure, or it logs one counted
   * failure and ends the run with it exactly when the counter passes the
   * budget.
   */
  ghost predicate Charged(w: World, o: Outcome)
  {
    || (o.w.errorCount == w.errorCount && o.w.failures == w.failures && !CountedExit(o.exit))
    || (&& |o.w.failures| == |w.failures| + 1
        && o.w.failures[..|w.failures|] == w.failures
        && Counted(o.w.failures[|w.failures|])
        && o.w.errorCount == w.errorCount + 1
        && o.exit == if o.w.errorCount > ErrorBudget as nat then Some(Err(o.w.failures[|w.failures|])) else None)
  }

  lemma FailCharged(w: World, v: World, call: Call)
    requires Counted(call) && v.errorCount == w.errorCount && v.failures == w.failures
    ensures Charged(w, Fail(v, call))
  {
    assert (w.failures + [call])[..|w.failures|] == w.failures;
  }

  lemma ProcessCharged(w: World, id: string, r: Replies)
    ensures Charged(w, Process(w, id, r))
  {
    var o := Process(w, id, r);
    var v1 := w.(calls := w.calls + [ClickChat(id)] + (if r.clickOk then [] else [Refresh]));
    var v2 := v1.(calls := v1.calls + [FindMarkRead(id)] + (if r.markRead.Absent? then [] else [ClickMarkRead(id)]));
    var v := v2.(calls := v2.calls + [GetMessages(id)]);
    if !(!r.clickOk && !r.recoverOk) && !r.markRead.ClickFailed? {
      match r.messages
      case None =>
        FailCharged(w, v, GetMessages(id));
      case Some(sample) =>
        SampledFrame(v, id, sample, r.dead);
    }
  }

  lemma PollCharged(w: World, r: Replies)
    ensures Charged(w, PollSpec(w, r))
  {
    var v := w.(calls := w.calls + [GetChats]);
    match r.chats
    case None =>
      FailCharged(w, v, GetChats);
    case Some(chats) =>
      var admitted := Admitted(chats, v.inner.Keys);
      if admitted != [] {
        ProcessCharged(v, admitted[0].id, r);
      }
  }

  lemma DispatchCharged(w: World, r: Replies)
    ensures Charged(w, DispatchSpec(w, r))
  {
    var queue := w.pending + r.arrivals;
    if queue != [] {
      var v := w.(pending := queue[1..]);
      match Classify(queue[0])
      case TakeScreenshot =>
        FailCharged(w, v.(calls := v.calls + [ScreenshotLog]), ScreenshotLog);
      case DumpHtml =>
        FailCharged(w, v.(calls := v.calls + [HtmlLog]), HtmlLog);
      case Restart =>
      case RefreshPage =>
      case SendFile =>
      case SendText(chatId, content) =>
        var v1 := v.(calls := v.calls + [GoToChat(chatId)]);
        FailCharged(w, v1, GoToChat(chatId));
        FailCharged(w, v1.(calls := v1.calls + [SendMessage(content)]), SendMessage(content));
    }
  }

  lemma ChargedBudgeted(w: World, o: Outcome)
    requires Budgeted(w) && w.errorCount <= ErrorBudget as nat && Charged(w, o)
    ensures Budgeted(o.w) && o.w.errorCount <= w.errorCount + 1
    ensures |w.failures| <= |o.w.failures| <= |w.failures| + 1 && o.w.failures[..|w.failures|] == w.failures
    ensures CountedExit(o.exit) <==> o.w.errorCount > ErrorBudget as nat
    ensures o.exit.None? ==> o.w.errorCount <= ErrorBudget as nat
  {
    if o.w.failures != w.failures {
      forall i | 0 <= i < |o.w.failures| ensures Counted(o.w.failures[i]) {
        if i < |w.failures| {
          assert o.w.failures[i] == o.w.failures[..|w.failures|][i];
        }
      }
    }
  }

  /**
   * One cycle logs at most two counted failures, ends the run with a counted
   * failure exactly when the counter passes the budget, and otherwise leaves
   * the counter within it.
   */
  lemma CycleBudget(w: World, r: Replies)
    requires Budgeted(w) && w.errorCount <= ErrorBudget as nat
    ensures var o := CycleSpec(w, r);
            && Budgeted(o.w)
            && |w.failures| <= |o.w.failures| <= |w.failures| + 2
            && o.w.failures[..|w.failures|] == w.failures
            && (CountedExit(o.exit) <==> o.w.errorCount > ErrorBudget as nat)
            && o.w.errorCount <= ErrorBudget as nat + 1
            && (o.exit.None? ==> o.w.errorCount <= ErrorBudget as nat)
  {
    var v := Connect(w, r.accepted);
    ConnectSpec(w, r.accepted);
    var p := PollSpec(v, r);
    PollCharged(v, r);
    ChargedBudgeted(v, p);
    if p.exit.None? {
      var d := DispatchSpec(p.w, r);
      DispatchCharged(p.w, r);
      ChargedBudgeted(p.w, d);
      assert d.w.failures[..|w.failures|] == d.w.failures[..|p.w.failures|][..|w.failures|];
    }
  }

  /**
   * Over a run: the counter equals the number of counted failures logged, and
   * the run ends with a counted failure exactly when that failure is the
   * eleventh since the run started.
   */
  lemma {:induction false} RunBudget(w: World, rs: seq<Replies>)
    requires Budgeted(w) && w.errorCount <= ErrorBudget as nat
    ensures var o := RunSpec(w, rs);
            && Budgeted(o.w)
            && |w.failures| <= |o.w.failures|
            && o.w.failures[..|w.failures|] == w.failures
            && (CountedExit(o.exit) <==> |o.w.failures| == ErrorBudget as nat + 1)
            && (o.exit.None? ==> |o.w.failures| <= ErrorBudget as nat)
    decreases |rs|
  {
    if rs != [] {
      var o := CycleSpec(w, rs[0]);
      CycleBudget(w, rs[0]);
      if o.exit.None? {
        RunBudget(o.w, rs[1..]);
        var o' := RunSpec(o.w, rs[1..]);
        assert o'.w.failures[..|w.failures|] == o'.w.failures[..|o.w.failures|][..|w.failures|];
      }
    }
  }

  /** A cycle tracks at most one chat more: the first admitted one. */
  lemma CycleTracks(w: World, r: Replies)
    ensures var o := CycleSpec(w, r);
            || o.w.inner.Keys == w.inner.Keys
            || (&& r.chats.Some?
                && var admitted := Admitted(r.chats.value, w.inner.Keys);
                && admitted != []
                && o.w.inner.Keys == w.inner.Keys + {admitted[0].id})
  {
    var u := Connect(w, r.accepted);
    ConnectSpec(w, r.accepted);
    var p := PollSpec(u, r);
    if p.exit.None? {
      DispatchFrame(p.w, r);
    }
    assert CycleSpec(w, r).w.inner == p.w.inner;
    if r.chats.Some? {
      var admitted := Admitted(r.chats.value, w.inner.Keys);
      if admitted != [] {
        var id := admitted[0].id;
        var v := u.(calls := u.calls + [GetChats]);
        assert p == Process(v, id, r);
        ProcessTracks(v, id, r);
        if r.messages.Some? {
          CheckFrame(w.inner, id, r.messages.value);
        }
      }
    }
  }

  /** Processing a chat leaves the cache alone or applies the check of its sample. */
  lemma ProcessTracks(w: World, id: string, r: Replies)
    ensures var o := Process(w, id, r);
            || o.w.inner == w.inner
            || (r.messages.Some? && o.w.inner == CheckSpec(w.inner, id, r.messages.value).inner)
  {
    if r.messages.Some? {
      var v1 := w.(calls := w.calls + [ClickChat(id)] + (if r.clickOk then [] else [Refresh]));
      var v2 := v1.(calls := v1.calls + [FindMarkRead(id)] + (if r.markRead.Absent? then [] else [ClickMarkRead(id)]));
      SampledFrame(v2.(calls := v2.calls + [GetMessages(id)]), id, r.messages.value, r.dead);
    }
  }

  /** Sampling changes the cache as the check says, may change the registry, and nothing else. */
  lemma SampledFrame(w: World, id: string, sample: Messages, dead: set<Relay.Conn>)
    ensures var v := Sampled(w, id, sample, dead);
            && v.inner == CheckSpec(w.inner, id, sample).inner
            && v.calls == w.calls && v.errorCount == w.errorCount && v.failures == w.failures
            && v.pending == w.pending
  {
    var c := CheckSpec(w.inner, id, sample);
    if c.report.Some? {
      FanOutKeepsCache(w.(inner := c.inner), c.report.value, dead);
    }
  }

  /** Fan-out touches only the registry. */
  lemma {:induction false} FanOutKeepsCache(w: World, news: Messages, dead: set<Relay.Conn>)
    ensures FanOut(w, news, dead).inner == w.inner
    ensures FanOut(w, news, dead).calls == w.calls
    ensures FanOut(w, news, dead).errorCount == w.errorCount && FanOut(w, news, dead).failures == w.failures
    ensures FanOut(w, news, dead).pending == w.pending
  {
    if news != [] {
      FanOutKeepsCache(w, news[..|news| - 1], dead);
    }
  }

  /**
   * Once 20 chats are tracked, a chat that is never seen unread is never
   * tracked, however many cycles see it.
   */
  lemma {:induction false} QuietChatNeverTracked(w: World, rs: seq<Replies>, id: string)
    requires |w.inner.Keys| >= TrackingCap && id !in w.inner
    requires forall k, c :: 0 <= k < |rs| && rs[k].chats.Some? && c in rs[k].chats.value && c.id == id ==> !c.unread
    ensures id !in RunSpec(w, rs).w.inner
    decreases |rs|
  {
    if rs != [] {
      var r := rs[0];
      var o := CycleSpec(w, r);
      CycleTracks(w, r);
      if r.chats.Some? {
        var admitted := Admitted(r.chats.value, w.inner.Keys);
        if admitted != [] {
          var _ := AdmittedSpec(r.chats.value, w.inner.Keys);
          assert admitted[0] in admitted;
          assert admitted[0].id != id;
        }
      }
      assert id !in o.w.inner;
      if o.exit.None? {
        assert w.inner.Keys <= o.w.inner.Keys;
        SubsetCard(w.inner.Keys, o.w.inner.Keys);
        QuietChatNeverTracked(o.w, rs[1..], id);
      }
    }
  }

  lemma SubsetCard(a: set<string>, b: set<string>)
    requires a <= b
    ensures |a| <= |b|
  {
    assert b == a + (b - a);
  }

  /**
   * What the fan-out of a cycle leaves in the registry: the senders that took
   * the first message, and for each of them everything reported, in order.
   */
  lemma {:induction false} FanOutDelivers(w: World, news: Messages, dead: set<Relay.Conn>)
    requires news != []
    ensures FanOut(w, news, dead).senders == Relay.Survivors(w.senders, dead)
    ensures FanOut(w, news, dead).delivered.Keys == w.delivered.Keys
    ensures forall c :: c in w.delivered ==>
              FanOut(w, news, dead).delivered[c]
              == if c in w.senders && c !in dead then w.delivered[c] + news else w.delivered[c]
  {
    var n := |news| - 1;
    if n == 0 {
      assert news == [news[0]];
      OfferFirst(w, news[0], dead);
    } else {
      FanOutDelivers(w, news[..n], dead);
      var mid := FanOut(w, news[..n], dead);
      OfferAfter(w, mid, news[..n], news[n], news, dead);
      assert FanOut(w, news, dead) == Offer(mid, news[n], dead);
    }
  }

  /** The first message offered. */
  lemma OfferFirst(w: World, x: ChatMessage, dead: set<Relay.Conn>)
    ensures FanOut(w, [x], dead).senders == Relay.Survivors(w.senders, dead)
    ensures FanOut(w, [x], dead).delivered.Keys == w.delivered.Keys
    ensures forall c :: c in w.delivered ==>
              FanOut(w, [x], dead).delivered[c]
              == if c in w.senders && c !in dead then w.delivered[c] + [x] else w.delivered[c]
  {
    assert FanOut(w, [x], dead) == Offer(w, x, dead);
  }

  /** One more message offered after `sent` went out. */
  lemma OfferAfter(w: World, mid: World, sent: Messages, x: ChatMessage, all: Messages, dead: set<Relay.Conn>)
    requires all == sent + [x]
    requires mid.senders == Relay.Survivors(w.senders, dead)
    requires mid.delivered.Keys == w.delivered.Keys
    requires forall c :: c in w.delivered ==>
               mid.delivered[c] == if c in w.senders && c !in dead then w.delivered[c] + sent else w.delivered[c]
    ensures Offer(mid, x, dead).senders == Relay.Survivors(w.senders, dead)
    ensures Offer(mid, x, dead).delivered.Keys == w.delivered.Keys
    ensures forall c :: c in w.delivered ==>
              Offer(mid, x, dead).delivered[c]
              == if c in w.senders && c !in dead then w.delivered[c] + all else w.delivered[c]
  {
    var _ := Relay.SurvivorsSpec(w.senders, dead);
    Relay.SurvivorsTwice(w.senders, dead);
    forall c | c in w.delivered
      ensures Offer(mid, x, dead).delivered[c]
              == if c in w.senders && c !in dead then w.delivered[c] + all else w.delivered[c]
    {
      if c in w.senders && c !in dead {
        assert w.delivered[c] + sent + [x] == w.delivered[c] + all;
      }
    }
  }

  /** Serving the queued requests: one at a time, oldest first, each as its sender asks. */
  lemma DispatchServesOldest(w: World, r: Replies)
    ensures var queue := w.pending + r.arrivals;
            var o := DispatchSpec(w, r);
            && (queue == [] ==> o == Outcome(w.(pending := []), None))
            && (queue != [] ==>
                  && o.w.pending == queue[1..]
                  && o.w.inner == w.inner && o.w.senders == w.senders && o.w.delivered == w.delivered
                  && (queue[0].sender == "<restart>" ==> o == Outcome(w.(pending := queue[1..]), Some(Ok)))
                  && (queue[0].sender == "<file>" ==> o == Outcome(w.(pending := queue[1..]), None))
                  && (queue[0].sender == "<screenshot>" ==>
                        && o.w.calls == w.calls + [ScreenshotLog]
                        && o.w.failures == w.failures + (if r.diagnosticOk then [] else [ScreenshotLog])
                        && (o.exit.Some? ==> o.exit == Some(Err(ScreenshotLog))))
                  && (queue[0].sender == "<html>" ==>
                        && o.w.calls == w.calls + [HtmlLog]
                        && o.w.failures == w.failures + (if r.diagnosticOk then [] else [HtmlLog])
                        && (o.exit.Some? ==> o.exit == Some(Err(HtmlLog))))
                  && (queue[0].sender == "<refresh>" ==>
                        && o.w.calls == w.calls + [Refresh] && o.w.failures == w.failures
                        && o.exit == (if r.refreshOk then None else Some(Err(Refresh))))
                  && (queue[0].sender !in Sentinels ==>
                        && o.w.calls == w.calls + [GoToChat(queue[0].chatId)] + (if r.goToOk then [SendMessage(queue[0].content)] else [])
                        && o.w.failures == w.failures + (if !r.goToOk then [GoToChat(queue[0].chatId)]
                                                         else if !r.sendOk then [SendMessage(queue[0].content)]
                                                         else [])))
  {
    var queue := w.pending + r.arrivals;
    if queue != [] {
      var req := Classify(queue[0]);
      if queue[0].sender !in Sentinels {
        assert req == SendText(queue[0].chatId, queue[0].content);
      }
    }
  }

  /**
   * A cycle with no admissible chat makes no call but reading the chat list
   * before it dispatches, with the new connections joined.
   */
  lemma IdleCycle(w: World, r: Replies)
    requires r.chats.Some? && Admitted(r.chats.value, w.inner.Keys) == []
    ensures CycleSpec(w, r) == DispatchSpec(Connect(w, r.accepted).(calls := w.calls + [GetChats]), r)
  {
    ConnectSpec(w, r.accepted);
  }

  /** A cycle that processes a chat clicks the first admitted one, right after reading the list. */
  lemma CycleProcessesFirst(w: World, r: Replies)
    requires r.chats.Some? && Admitted(r.chats.value, w.inner.Keys) != []
    ensures var c := Admitted(r.chats.value, w.inner.Keys)[0];
            var o := CycleSpec(w, r);
            && |o.w.calls| >= |w.calls| + 2
            && o.w.calls[..|w.calls| + 2] == w.calls + [GetChats, ClickChat(c.id)]
            && c in r.chats.value && (c.unread || (c.id !in w.inner && |w.inner.Keys| < TrackingCap))
  {
    var chats := r.chats.value;
    var _ := AdmittedSpec(chats, w.inner.Keys);
    var c := Admitted(chats, w.inner.Keys)[0];
    assert c in Admitted(chats, w.inner.Keys);
    var u := Connect(w, r.accepted);
    ConnectSpec(w, r.accepted);
    var p := PollSpec(u, r);
    var head := w.calls + [GetChats, ClickChat(c.id)];
    assert p.w.calls[..|head|] == head by {
      FanOutKeepsCache(u, [], r.dead);
      ProcessCalls(u.(calls := u.calls + [GetChats]), c.id, r);
    }
    if p.exit.None? {
      DispatchCalls(p.w, r);
      assert CycleSpec(w, r).w.calls[..|head|] == p.w.calls[..|head|];
    }
  }

  /** Processing a chat only appends to the call log, starting with the click. */
  lemma ProcessCalls(w: World, id: string, r: Replies)
    ensures var o := Process(w, id, r);
            |o.w.calls| >= |w.calls| + 1 && o.w.calls[..|w.calls| + 1] == w.calls + [ClickChat(id)]
  {
    var o := Process(w, id, r);
    var head := w.calls + [ClickChat(id)];
    var v1 := w.(calls := head + (if r.clickOk then [] else [Refresh]));
    assert v1.calls[..|head|] == head;
    var v2 := v1.(calls := v1.calls + [FindMarkRead(id)] + (if r.markRead.Absent? then [] else [ClickMarkRead(id)]));
    assert v2.calls[..|head|] == head;
    var v3 := v2.(calls := v2.calls + [GetMessages(id)]);
    assert v3.calls[..|head|] == head;
    if !r.clickOk && !r.recoverOk {
      assert o.w.calls == v1.calls;
    } else if r.markRead.ClickFailed? {
      assert o.w.calls == v2.calls;
    } else if r.messages.None? {
      assert o.w.calls == v3.calls;
    } else {
      SampledFrame(v3, id, r.messages.value, r.dead);
      assert o.w.calls == v3.calls;
    }
  }

  /** Dispatching leaves the cache and the registry alone. */
  lemma DispatchFrame(w: World, r: Replies)
    ensures var o := DispatchSpec(w, r);
            o.w.inner == w.inner && o.w.senders == w.senders && o.w.delivered == w.delivered
  {
    var queue := w.pending + r.arrivals;
    if queue != [] {
      var v := w.(pending := queue[1..]);
      var o := DispatchSpec(w, r);
      match Classify(queue[0]) {
        case TakeScreenshot =>
          assert o.w.inner == v.inner;
        case DumpHtml =>
          assert o.w.inner == v.inner;
        case Restart =>
        case RefreshPage =>
        case SendFile =>
        case SendText(chatId, content) =>
          assert o.w.inner == v.inner;
      }
    }
  }

  /** Dispatching only appends to the call log. */
  lemma DispatchCalls(w: World, r: Replies)
    ensures var o := DispatchSpec(w, r);
            |o.w.calls| >= |w.calls| && o.w.calls[..|w.calls|] == w.calls
  {
  }

  // ---------------------------------------------------------------------------
  // The run, imperatively
  // ---------------------------------------------------------------------------

  /** The `retain` of src/main.rs:144, asking the cache about each chat in turn. */
  method RetainAdmissible(chats: seq<ChatOption>, cache: Cache) returns (kept: seq<ChatOption>)
    requires cache.Valid()
    ensures kept == Admitted(chats, cache.seen)
  {
    ghost var tracked := cache.seen;
    kept := [];
    for i := 0 to |chats|
      invariant kept == Admitted(chats[..i], tracked)
    {
      AdmittedStep(chats, tracked, i);
      var chat := chats[i];
      var admit := chat.unread || (!cache.CheckKey(chat.id) && cache.Size() < TrackingCap);
      assert admit == Admissible(chat, tracked);
      if admit {
        kept := kept + [chat];
      }
    }
    assert chats[..|chats|] == chats;
  }

  class Run {
    var errorCount: u8
    /** The counted failures logged so far. */
    var failures: seq<Call>
    /** The browser calls made so far. */
    var calls: seq<Call>
    const cache: Cache
    const registry: Relay.Registry
    const requests: Relay.RequestQueue

    ghost predicate Valid()
      reads this, cache, registry
    {
      cache.Valid() && registry.Valid() && errorCount as nat == |failures| && errorCount <= ErrorBudget
    }

    ghost function State(): World
      reads this, cache, registry, requests
    {
      World(errorCount as nat, failures, cache.inner, registry.senders, registry.delivered, registry.next, requests.pending, calls)
    }

    /** A run starts with an empty cache, no connections, no requests and a zero counter (src/main.rs:44-46, 115, 121). */
    constructor ()
      ensures Valid() && State() == Fresh
      ensures fresh(cache) && fresh(registry) && fresh(requests)
    {
      errorCount := 0;
      failures := [];
      calls := [];
      cache := new Cache();
      registry := new Relay.Registry();
      requests := new Relay.RequestQueue();
    }

    /** One more counted failure: the counter goes up, and the run ends once it passes the budget. */
    method CountFailure(call: Call) returns (exit: Option<Exit>)
      requires errorCount as nat == |failures| && errorCount <= ErrorBudget
      modifies this
      ensures errorCount as nat == old(errorCount) as nat + 1 && failures == old(failures) + [call]
      ensures exit == if errorCount > ErrorBudget then Some(Err(call)) else None
      ensures calls == old(calls)
    {
      errorCount := errorCount + 1;
      failures := failures + [call];
      if errorCount > ErrorBudget {
        return Some(Err(call));
      }
      return None;
    }

    /** Each reported message offered to the registry in turn (src/main.rs:196-207). */
    method FanOutAll(news: Messages, dead: set<Relay.Conn>)
      requires registry.Valid()
      modifies registry
      ensures registry.Valid()
      ensures State() == FanOut(old(State()), news, dead)
    {
      for i := 0 to |news|
        invariant registry.Valid()
        invariant State() == FanOut(old(State()), news[..i], dead)
      {
        assert news[..i + 1][..i] == news[..i];
        registry.Broadcast(news[i], dead);
      }
      assert news[..|news|] == news;
    }

    /** The polling half of a cycle. */
    method Poll(r: Replies) returns (exit: Option<Exit>)
      requires Valid()
      modifies this, cache, registry
      ensures cache.Valid() && registry.Valid() && errorCount as nat == |failures|
      ensures exit.None? ==> errorCount <= ErrorBudget
      ensures Outcome(State(), exit) == PollSpec(old(State()), r)
    {
      calls := calls + [GetChats];
      if r.chats.None? {
        exit := CountFailure(GetChats);
        return;
      }
      var chats := RetainAdmissible(r.chats.value, cache);
      if chats == [] {
        return None;
      }
      exit := ProcessChat(chats[0].id, r);
    }

    /** Processing the first admitted chat (src/main.rs:145-209). */
    method ProcessChat(id: string, r: Replies) returns (exit: Option<Exit>)
      requires Valid()
      modifies this, cache, registry
      ensures cache.Valid() && registry.Valid() && errorCount as nat == |failures|
      ensures exit.None? ==> errorCount <= ErrorBudget
      ensures Outcome(State(), exit) == Process(old(State()), id, r)
    {
      ghost var w0 := State();
      calls := calls + [ClickChat(id)];
      if !r.clickOk {
        calls := calls + [Refresh];
        if !r.recoverOk {
          return Some(Err(Refresh));
        }
      }
      ghost var w1 := w0.(calls := w0.calls + [ClickChat(id)] + (if r.clickOk then [] else [Refresh]));
      assert State() == w1;
      calls := calls + [FindMarkRead(id)];
      if !r.markRead.Absent? {
        calls := calls + [ClickMarkRead(id)];
        if r.markRead.ClickFailed? {
          return Some(Err(ClickMarkRead(id)));
        }
      }
      ghost var w2 := w1.(calls := w1.calls + [FindMarkRead(id)] + (if r.markRead.Absent? then [] else [ClickMarkRead(id)]));
      assert State() == w2;
      calls := calls + [GetMessages(id)];
      ghost var w3 := w2.(calls := w2.calls + [GetMessages(id)]);
      if r.messages.None? {
        assert Process(w0, id, r) == Fail(w3, GetMessages(id));
        exit := CountFailure(GetMessages(id));
        return;
      }
      assert State() == w3;
      Sample(id, r.messages.value, r.dead);
      return None;
    }

    /** The sample checked against the cache, and what it reports fanned out. */
    method Sample(id: string, sample: Messages, dead: set<Relay.Conn>)
      requires cache.Valid() && registry.Valid()
      modifies cache, registry
      ensures cache.Valid() && registry.Valid()
      ensures State() == Sampled(old(State()), id, sample, dead)
    {
      ghost var w := State();
      var report := cache.Check(id, sample);
      ghost var checked := CheckSpec(w.inner, id, sample);
      assert State() == w.(inner := checked.inner) && report == checked.report;
      if report.Some? {
        FanOutAll(report.value, dead);
      }
    }

    /** The dispatch half of a cycle. */
    method Dispatch(r: Replies) returns (exit: Option<Exit>)
      requires errorCount as nat == |failures| && errorCount <= ErrorBudget
      modifies this, requests
      ensures errorCount as nat == |failures|
      ensures exit.None? ==> errorCount <= ErrorBudget
      ensures Outcome(State(), exit) == DispatchSpec(old(State()), r)
    {
      ghost var queue := requests.pending + r.arrivals;
      requests.Enqueue(r.arrivals);
      var next := requests.TryRecv();
      if next.None? {
        return None;
      }
      ghost var w := old(State()).(pending := queue[1..]);
      assert State() == w && next.value == queue[0];
      match Classify(next.value) {
        case TakeScreenshot =>
          calls := calls + [ScreenshotLog];
          exit := None;
          if !r.diagnosticOk {
            exit := CountFailure(ScreenshotLog);
          }
        case DumpHtml =>
          calls := calls + [HtmlLog];
          exit := None;
          if !r.diagnosticOk {
            exit := CountFailure(HtmlLog);
          }
        case Restart =>
          exit := Some(Ok);
        case RefreshPage =>
          calls := calls + [Refresh];
          exit := if r.refreshOk then None else Some(Err(Refresh));
        case SendFile =>
          exit := None;
        case SendText(chatId, content) =>
          calls := calls + [GoToChat(chatId)];
          if !r.goToOk {
            exit := CountFailure(GoToChat(chatId));
            return;
          }
          calls := calls + [SendMessage(content)];
          exit := None;
          if !r.sendOk {
            exit := CountFailure(SendMessage(content));
          }
      }
    }

    /** The listener task registering `n` connections, one after another (src/main.rs:48-55). */
    method AcceptAll(n: nat)
      requires registry.Valid()
      modifies registry
      ensures registry.Valid()
      ensures State() == Connect(old(State()), n)
    {
      for i := 0 to n
        invariant registry.Valid()
        invariant State() == Connect(old(State()), i)
      {
        var _ := registry.Accept();
      }
    }

    /** One pass of the outer loop of src/main.rs:124-289. */
    method Cycle(r: Replies) returns (exit: Option<Exit>)
      requires Valid()
      modifies this, cache, registry, requests
      ensures exit.None? ==> Valid()
      ensures Outcome(State(), exit) == CycleSpec(old(State()), r)
    {
      AcceptAll(r.accepted);
      exit := Poll(r);
      if exit.None? {
        exit := Dispatch(r);
      }
    }

    /** The cycles of a run, one per element of `rs`, until one of them ends it. */
    method Loop(rs: seq<Replies>) returns (exit: Option<Exit>)
      requires Valid()
      modifies this, cache, registry, requests
      ensures Outcome(State(), exit) == RunSpec(old(State()), rs)
    {
      var i := 0;
      while i < |rs|
        invariant 0 <= i <= |rs| && Valid()
        invariant RunSpec(old(State()), rs) == RunSpec(State(), rs[i..])
      {
        assert rs[i..][1..] == rs[i + 1..];
        exit := Cycle(rs[i]);
        if exit.Some? {
          return;
        }
        i := i + 1;
      }
      return None;
    }
  }

  /** A whole run from its start (`entry`): a fresh state, then the cycles. */
  method Entry(rs: seq<Replies>) returns (exit: Option<Exit>)
    ensures exit == RunSpec(Fresh, rs).exit
  {
    var run := new Run();
    exit := run.Loop(rs);
  }
}
