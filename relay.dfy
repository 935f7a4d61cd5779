/**
 * The relay between the scraper and its TCP clients (src/main.rs:44-113
 * and 195-208): the registry of per-connection outbound queues that every
 * new message is fanned out to, and the shared request queue that each
 * connection's task feeds with the messages its client writes.
 */
module Relay {
  import opened Wrappers
  import opened Chat
  import opened Sequences
  import Framing

  /** A connection, named by the handle of its outbound queue. */
  type Conn = nat

  type Messages = seq<ChatMessage>

  // ---------------------------------------------------------------------------
  // Fan-out
  // ---------------------------------------------------------------------------

  predicate Distinct(cs: seq<Conn>)
  {
    forall i, j :: 0 <= i < j < |cs| ==> cs[i] != cs[j]
  }

  /** The connections a broadcast keeps: those whose queue still accepts messages. */
  function Survivors(senders: seq<Conn>, failing: set<Conn>): (kept: seq<Conn>)
  {
    Filter(senders, (c: Conn) => c !in failing)
  }

  /** What every queue has accepted after `msg` is offered to each of `senders` once. */
  function Delivered(delivered: map<Conn, Messages>, senders: seq<Conn>, failing: set<Conn>, msg: ChatMessage): map<Conn, Messages>
  {
    map c | c in delivered :: if c in senders && c !in failing then delivered[c] + [msg] else delivered[c]
  }

  /** A survivor of a broadcast is exactly a registered connection whose send did not fail, and the survivors keep their order. */
  lemma SurvivorsSpec(senders: seq<Conn>, failing: set<Conn>) returns (pos: seq<nat>)
    ensures forall c :: c in Survivors(senders, failing) <==> c in senders && c !in failing
    ensures Embeds(pos, Survivors(senders, failing), senders)
    ensures forall k :: 0 <= k < |senders| && senders[k] !in failing ==> k in pos
  {
    FilterMembers(senders, (c: Conn) => c !in failing);
    pos := FilterEmbeds(senders, (c: Conn) => c !in failing);
  }

  /** Survivors of a list without repetitions have none either. */
  lemma {:induction false} SurvivorsDistinct(senders: seq<Conn>, failing: set<Conn>)
    requires Distinct(senders)
    ensures Distinct(Survivors(senders, failing))
  {
    var pos := SurvivorsSpec(senders, failing);
    var kept := Survivors(senders, failing);
    forall i, j | 0 <= i < j < |kept| ensures kept[i] != kept[j] {
      assert senders[pos[i]] != senders[pos[j]];
    }
  }

  /** A second broadcast with the same failing queues drops nobody more. */
  lemma SurvivorsTwice(senders: seq<Conn>, failing: set<Conn>)
    ensures Survivors(Survivors(senders, failing), failing) == Survivors(senders, failing)
  {
    FilterIdempotent(senders, (c: Conn) => c !in failing);
  }

  /** A connection dropped by one broadcast is not offered any later message. */
  lemma DroppedStaysDropped(senders: seq<Conn>, first: set<Conn>, later: set<Conn>, delivered: map<Conn, Messages>, msg: ChatMessage, c: Conn)
    requires c in first && c in delivered
    ensures c !in Survivors(senders, first)
    ensures Delivered(delivered, Survivors(senders, first), later, msg)[c] == delivered[c]
  {
    var _ := SurvivorsSpec(senders, first);
  }

  /**
   * The registry of outbound queues (the shared `Vec` of senders). The
   * `delivered` map records, per connection, every message its
   * queue has accepted.
   */
  class Registry {
    var senders: seq<Conn>
    var delivered: map<Conn, Messages>
    /** The handle the next accepted connection gets. */
    var next: Conn

    ghost predicate Valid()
      reads this
    {
      && Distinct(senders)
      && (forall c :: c in senders ==> c in delivered)
      && (forall c :: c in delivered ==> c < next)
    }

    constructor()
      ensures Valid() && senders == [] && delivered == map[] && next == 0
    {
      senders := [];
      delivered := map[];
      next := 0;
    }

    /** A newly accepted connection's queue joins the registry under a handle never used before (src/main.rs:50-55). */
    method Accept() returns (c: Conn)
      requires Valid()
      modifies this
      ensures Valid()
      ensures c == old(next) && c !in old(delivered) && next == old(next) + 1
      ensures senders == old(senders) + [c]
      ensures delivered == old(delivered)[c := []]
    {
      c := next;
      assert forall i :: 0 <= i < |senders| ==> senders[i] in delivered;
      senders := senders + [c];
      delivered := delivered[c := []];
      next := next + 1;
    }

    /**
     * Offers `msg` to every registered queue, in order, and keeps exactly the
     * queues that accepted it (src/main.rs:203-205). A send fails when the
     * connection's task has ended; `failing` names those connections.
     */
    method Broadcast(msg: ChatMessage, failing: set<Conn>)
      requires Valid()
      modifies this
      ensures Valid()
      ensures senders == Survivors(old(senders), failing)
      ensures delivered == Delivered(old(delivered), old(senders), failing, msg)
      ensures next == old(next)
    {
      var all := senders;
      var d := delivered;
      var kept: seq<Conn> := [];
      var i := 0;
      while i < |all|
        invariant 0 <= i <= |all|
        invariant kept == Survivors(all[..i], failing)
        invariant d == Delivered(delivered, all[..i], failing, msg)
        invariant senders == all && delivered == old(delivered) && next == old(next) && Valid()
      {
        var c := all[i];
        FilterStep(all, (c: Conn) => c !in failing, i);
        DeliveredStep(delivered, all, failing, msg, i);
        if c !in failing {
          d := d[c := d[c] + [msg]];
          kept := kept + [c];
        }
        i := i + 1;
      }
      assert all[..i] == all;
      SurvivorsDistinct(all, failing);
      var _ := SurvivorsSpec(all, failing);
      senders, delivered := kept, d;
    }
  }

  /** Offering the message to one more connection of a list without repetitions. */
  lemma DeliveredStep(delivered: map<Conn, Messages>, all: seq<Conn>, failing: set<Conn>, msg: ChatMessage, i: nat)
    requires i < |all| && Distinct(all) && all[i] in delivered
    ensures var before := Delivered(delivered, all[..i], failing, msg);
            Delivered(delivered, all[..i + 1], failing, msg)
            == if all[i] in failing then before else before[all[i] := before[all[i]] + [msg]]
  {
    var c := all[i];
    assert all[..i + 1] == all[..i] + [c];
    assert c !in all[..i] by {
      forall k | 0 <= k < i ensures all[..i][k] != c {
        assert all[k] != all[i];
      }
    }
  }

  // ---------------------------------------------------------------------------
  // Inbound requests
  // ---------------------------------------------------------------------------

  /**
   * The messages a chunk's packets become: each packet that parses as a
   * message, cleaned, in packet order. `parse` stands for the JSON decoder
   * and `unidecode` for the transliteration applied by the clean-up.
   */
  function Forwarded(packets: seq<string>, parse: string -> Option<ChatMessage>, unidecode: string -> string): (ms: Messages)
    ensures |ms| <= |packets|
  {
    if packets == [] then []
    else
      var last := packets[|packets| - 1];
      Forwarded(packets[..|packets| - 1], parse, unidecode)
      + match parse(last) case Some(m) => [Clean(m, unidecode)] case None => []
  }

  function CleanAll(ms: Messages, unidecode: string -> string): (r: Messages)
    ensures |r| == |ms|
    ensures forall i :: 0 <= i < |ms| ==> r[i] == Clean(ms[i], unidecode)
  {
    if ms == [] then [] else CleanAll(ms[..|ms| - 1], unidecode) + [Clean(ms[|ms| - 1], unidecode)]
  }

  /** When every packet parses, the forwarded messages are the parsed ones, cleaned, in order. */
  lemma {:induction false} ForwardedAllParsed(packets: seq<string>, ms: Messages, parse: string -> Option<ChatMessage>, unidecode: string -> string)
    requires |packets| == |ms|
    requires forall i :: 0 <= i < |packets| ==> parse(packets[i]) == Some(ms[i])
    ensures Forwarded(packets, parse, unidecode) == CleanAll(ms, unidecode)
  {
    if packets != [] {
      var n := |packets| - 1;
      ForwardedAllParsed(packets[..n], ms[..n], parse, unidecode);
    }
  }

  /**
   * Records written back to back by a client and read in one chunk reach
   * the request queue as exactly the messages they encode, cleaned, in order.
   */
  lemma ChunkDelivers(records: seq<string>, ms: Messages, parse: string -> Option<ChatMessage>, unidecode: string -> string)
    requires records != [] && |records| == |ms|
    requires forall i :: 0 <= i < |records| ==> Framing.WellFramed(records[i])
    requires forall i :: 0 <= i < |records| ==> parse(records[i]) == Some(ms[i])
    ensures Forwarded(Framing.Packets(Framing.Concat(records)), parse, unidecode) == CleanAll(ms, unidecode)
  {
    Framing.RoundTrip(records);
    ForwardedAllParsed(records, ms, parse, unidecode);
  }

  /**
   * The outcome of one read from a client socket: the read failed, or it
   * returned `size` bytes, which `text` holds when they are valid UTF-8.
   */
  datatype Chunk = ReadFailed | Read(size: nat, text: Option<string>)

  /** The connection's task goes on reading after `chunk`. */
  predicate StaysOpen(chunk: Chunk)
  {
    chunk.Read? && chunk.size != 0
  }

  /** The messages a chunk puts on the request queue. */
  function ChunkRequests(chunk: Chunk, parse: string -> Option<ChatMessage>, unidecode: string -> string): Messages
  {
    if chunk.Read? && chunk.text.Some? && chunk.size != 0
    then Forwarded(Framing.Packets(chunk.text.value), parse, unidecode)
    else []
  }

  /** The channel every connection's task sends client requests into and the main loop drains. */
  class RequestQueue {
    var pending: Messages

    constructor()
      ensures pending == []
    {
      pending := [];
    }

    /** Requests the connection tasks have sent, in the order they sent them. */
    method Enqueue(ms: Messages)
      modifies this
      ensures pending == old(pending) + ms
    {
      pending := pending + ms;
    }

    /** A non-blocking receive: the oldest pending request, if any. */
    method TryRecv() returns (m: Option<ChatMessage>)
      modifies this
      ensures old(pending) == [] ==> m == None && pending == []
      ensures old(pending) != [] ==> m == Some(old(pending)[0]) && pending == old(pending)[1..]
    {
      if pending == [] {
        m := None;
      } else {
        m := Some(pending[0]);
        pending := pending[1..];
      }
    }

    /**
     * The read arm of a connection's task (src/main.rs:71-107): a failed
     * read or an empty one ends the task, bytes that are not UTF-8 are
     * ignored, and otherwise every packet of the chunk that parses is
     * cleaned and queued, in order. The source decodes before it tests for
     * an empty read; zero bytes always decode, so testing the size first
     * gives the same result on every read a socket can return.
     */
    method OnRead(chunk: Chunk, parse: string -> Option<ChatMessage>, unidecode: string -> string) returns (open: bool)
      modifies this
      ensures open <==> StaysOpen(chunk)
      ensures pending == old(pending) + ChunkRequests(chunk, parse, unidecode)
    {
      if chunk.ReadFailed? {
        return false;
      }
      if chunk.size == 0 {
        return false;
      }
      if chunk.text.None? {
        return true;
      }
      SendParsed(Framing.Packets(chunk.text.value), parse, unidecode);
      return true;
    }

    /** Each packet that parses, cleaned and queued, in order (src/main.rs:95-102). */
    method SendParsed(packets: seq<string>, parse: string -> Option<ChatMessage>, unidecode: string -> string)
      modifies this
      ensures pending == old(pending) + Forwarded(packets, parse, unidecode)
    {
      for i := 0 to |packets|
        invariant pending == old(pending) + Forwarded(packets[..i], parse, unidecode)
      {
        assert packets[..i + 1][..i] == packets[..i];
        match parse(packets[i]) {
          case Some(m) =>
            pending := pending + [Clean(m, unidecode)];
          case None =>
        }
      }
      assert packets[..|packets|] == packets;
    }
  }
}
