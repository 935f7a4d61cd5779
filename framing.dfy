/**
 * Framing of the records a client writes to the relay (src/main.rs:80-93).
 * Records are sent back to back with no delimiter; a chunk read from the
 * socket is cut wherever one record's closing brace meets the next one's
 * opening brace, and the braces the cut removed are put back.
 */
module Framing {

  /** A record boundary: "}{" starts at position `i`. */
  predicate BoundaryAt(s: string, i: int)
  {
    0 <= i && i + 1 < |s| && s[i] == '}' && s[i + 1] == '{'
  }

  predicate NoBoundary(s: string)
  {
    forall i :: 0 <= i < |s| ==> !BoundaryAt(s, i)
  }

  /** The number of occurrences of "}{" in `s` (they can never overlap). */
  function Occurrences(s: string): nat
  {
    if |s| < 2 then 0 else (if BoundaryAt(s, 0) then 1 else 0) + Occurrences(s[1..])
  }

  /** Rust's `str::split("}{")`: the parts between occurrences of "}{", left to right. */
  function SplitRecords(s: string): (parts: seq<string>)
    ensures |parts| >= 1 && parts[0] <= s
    ensures forall i :: 0 <= i < |parts| ==> NoBoundary(parts[i])
    decreases |s|
  {
    if |s| < 2 then [s]
    else if BoundaryAt(s, 0) then [""] + SplitRecords(s[2..])
    else
      var rest := SplitRecords(s[1..]);
      assert NoBoundary([s[0]] + rest[0]) by {
        forall i | 0 <= i < |[s[0]] + rest[0]| ensures !BoundaryAt([s[0]] + rest[0], i) {
          if i > 0 {
            assert !BoundaryAt(rest[0], i - 1);
          }
        }
      }
      [[s[0]] + rest[0]] + rest[1..]
  }

  /** The parts put back together with "}{" between neighbours. */
  function JoinRecords(parts: seq<string>): string
    requires |parts| >= 1
  {
    if |parts| == 1 then parts[0] else parts[0] + "}{" + JoinRecords(parts[1..])
  }

  /** Splitting on "}{" loses nothing: joining the parts with "}{" gives back the chunk. */
  lemma {:induction false} SplitRecordsJoin(s: string)
    ensures JoinRecords(SplitRecords(s)) == s
    decreases |s|
  {
    if |s| >= 2 {
      if BoundaryAt(s, 0) {
        SplitRecordsJoin(s[2..]);
        var parts := [""] + SplitRecords(s[2..]);
        assert SplitRecords(s) == parts && parts[1..] == SplitRecords(s[2..]);
        assert s == "}{" + s[2..];
      } else {
        SplitRecordsJoin(s[1..]);
        var rest := SplitRecords(s[1..]);
        assert SplitRecords(s) == [[s[0]] + rest[0]] + rest[1..];
        JoinRecordsConsHead(s[0], rest);
        assert s == [s[0]] + s[1..];
      }
    }
  }

  /** Prefixing the first part prefixes the joined string. */
  lemma JoinRecordsConsHead(c: char, parts: seq<string>)
    requires |parts| >= 1
    ensures JoinRecords([[c] + parts[0]] + parts[1..]) == [c] + JoinRecords(parts)
  {
    var q := [[c] + parts[0]] + parts[1..];
    if |parts| > 1 {
      assert q[1..] == parts[1..];
      assert JoinRecords(q) == [c] + parts[0] + "}{" + JoinRecords(parts[1..]);
    }
  }

  /** Opens with `{` and closes with `}`. */
  predicate Braced(p: string)
  {
    |p| >= 2 && p[0] == '{' && p[|p| - 1] == '}'
  }

  /** The packet a part becomes: a closing brace is added unless it ends with one, then an opening brace unless it starts with one. */
  function Reattach(part: string): (packet: string)
    ensures Braced(packet)
  {
    var s := if |part| > 0 && part[|part| - 1] == '}' then part else part + "}";
    if s[0] == '{' then s else "{" + s
  }

  function ReattachAll(parts: seq<string>): (packets: seq<string>)
    ensures |packets| == |parts|
    ensures forall i :: 0 <= i < |parts| ==> packets[i] == Reattach(parts[i])
  {
    if parts == [] then [] else [Reattach(parts[0])] + ReattachAll(parts[1..])
  }

  /** The packets one chunk read from a client is cut into. */
  function Packets(buf: string): seq<string>
  {
    ReattachAll(SplitRecords(buf))
  }

  /** There is one part more than there are occurrences of "}{". */
  lemma {:induction false} SplitCount(s: string)
    ensures |SplitRecords(s)| == Occurrences(s) + 1
    decreases |s|
  {
    if |s| >= 2 {
      if BoundaryAt(s, 0) {
        SplitCount(s[2..]);
        assert !BoundaryAt(s[1..], 0);
        assert s[1..][1..] == s[2..];
      } else {
        SplitCount(s[1..]);
      }
    }
  }

  /**
   * Shape of the packets: one more than there are occurrences of "}{", each
   * starting with an opening and ending with a closing brace.
   */
  lemma PacketsShape(buf: string)
    ensures |Packets(buf)| == Occurrences(buf) + 1
    ensures forall i :: 0 <= i < |Packets(buf)| ==> Braced(Packets(buf)[i])
  {
    var parts := SplitRecords(buf);
    SplitCount(buf);
    var packets := ReattachAll(parts);
    assert Packets(buf) == packets;
    forall i | 0 <= i < |packets| ensures Braced(packets[i]) {
      assert packets[i] == Reattach(parts[i]);
    }
  }

  // ---------------------------------------------------------------------------
  // Round trip for well-formed records
  // ---------------------------------------------------------------------------

  /**
   * A record the framing can rebuild: braces at both ends, no "}{" inside,
   * and no brace right inside either end (a serialised message record starts
   * with `{"` and ends with `"}`).
   */
  predicate WellFramed(r: string)
  {
    && |r| >= 2 && r[0] == '{' && r[|r| - 1] == '}'
    && NoBoundary(r)
    && r[1] != '{' && r[|r| - 2] != '}'
  }

  function Concat(rs: seq<string>): string
  {
    if rs == [] then "" else rs[0] + Concat(rs[1..])
  }

  /** The first occurrence of "}{" after a part with none is the one that ends it. */
  lemma {:induction false} SplitAfter(a: string, b: string)
    requires NoBoundary(a)
    ensures SplitRecords(a + "}{" + b) == [a] + SplitRecords(b)
    decreases |a|
  {
    var s := a + "}{" + b;
    if a == [] {
      assert s[2..] == b;
    } else {
      assert !BoundaryAt(s, 0) by {
        if |a| > 1 {
          assert !BoundaryAt(a, 0);
        }
      }
      assert NoBoundary(a[1..]) by {
        NoBoundarySlice(a, 1, |a|);
        assert a[1..|a|] == a[1..];
      }
      SplitAfter(a[1..], b);
      assert s[1..] == a[1..] + "}{" + b;
      var rest := SplitRecords(s[1..]);
      assert rest == [a[1..]] + SplitRecords(b);
      assert SplitRecords(s) == [[s[0]] + rest[0]] + rest[1..];
      assert [s[0]] + a[1..] == a;
    }
  }

  lemma NoBoundarySplit(a: string)
    requires NoBoundary(a)
    ensures SplitRecords(a) == [a]
    decreases |a|
  {
    if |a| >= 2 {
      assert !BoundaryAt(a, 0);
      assert NoBoundary(a[1..]) by {
        forall i | 0 <= i < |a[1..]| ensures !BoundaryAt(a[1..], i) {
          assert !BoundaryAt(a, i + 1);
        }
      }
      NoBoundarySplit(a[1..]);
      assert [a[0]] + a[1..] == a;
    }
  }

  lemma NoBoundarySlice(s: string, i: nat, j: nat)
    requires NoBoundary(s) && i <= j <= |s|
    ensures NoBoundary(s[i..j])
  {
    forall k | 0 <= k < j - i ensures !BoundaryAt(s[i..j], k) {
      assert !BoundaryAt(s, i + k);
    }
  }

  /** A well-framed record with its opening brace dropped when `open` is false and its closing one when `close` is false. */
  function Trimmed(r: string, open: bool, close: bool): string
    requires |r| >= 2
  {
    r[(if open then 0 else 1)..(if close then |r| else |r| - 1)]
  }

  lemma ReattachTrimmed(r: string, open: bool, close: bool)
    requires WellFramed(r)
    ensures Reattach(Trimmed(r, open, close)) == r
  {
    var t := Trimmed(r, open, close);
    if !open && !close && |r| == 2 {
      assert t == "";
    } else if !close {
      assert t + "}" == r[(if open then 0 else 1)..];
    }
  }

  /** The chunk from record 0 on, with record 0's opening brace dropped unless `first`. */
  function From(rs: seq<string>, first: bool): string
    requires rs != []
  {
    (if first || rs[0] == [] then rs[0] else rs[0][1..]) + Concat(rs[1..])
  }

  lemma {:induction false} RoundTripFrom(rs: seq<string>, first: bool)
    requires rs != []
    requires forall i :: 0 <= i < |rs| ==> WellFramed(rs[i])
    ensures Packets(From(rs, first)) == rs
    decreases |rs|
  {
    if |rs| == 1 {
      LastRecord(rs, first);
    } else {
      RoundTripFrom(rs[1..], false);
      NextRecord(rs, first);
    }
  }

  lemma LastRecord(rs: seq<string>, first: bool)
    requires |rs| == 1 && WellFramed(rs[0])
    ensures Packets(From(rs, first)) == rs
  {
    var r := rs[0];
    var t := Trimmed(r, first, true);
    NoBoundarySlice(r, if first then 0 else 1, |r|);
    ReattachTrimmed(r, first, true);
    assert From(rs, first) == t;
    NoBoundarySplit(t);
  }

  /** Where record 0 ends and record 1 begins, the chunk holds "}{". */
  lemma FromStep(rs: seq<string>, first: bool)
    requires |rs| > 1 && |rs[0]| >= 2 && rs[0][|rs[0]| - 1] == '}' && |rs[1]| >= 1 && rs[1][0] == '{'
    ensures From(rs, first) == Trimmed(rs[0], first, false) + "}{" + From(rs[1..], false)
  {
    var r, rest := rs[0], rs[1..];
    var t := Trimmed(r, first, false);
    var x, c1 := rest[0][1..], Concat(rest[1..]);
    assert (if first then r else r[1..]) == t + "}";
    assert rest[0] == "{" + x;
    assert Concat(rest) == "{" + (x + c1);
  }

  lemma NextRecord(rs: seq<string>, first: bool)
    requires |rs| > 1 && WellFramed(rs[0]) && WellFramed(rs[1])
    requires Packets(From(rs[1..], false)) == rs[1..]
    ensures Packets(From(rs, first)) == rs
  {
    var r := rs[0];
    var rest := rs[1..];
    var t := Trimmed(r, first, false);
    NoBoundarySlice(r, if first then 0 else 1, |r| - 1);
    ReattachTrimmed(r, first, false);
    var tail := From(rest, false);
    FromStep(rs, first);
    SplitAfter(t, tail);
    var parts := [t] + SplitRecords(tail);
    assert parts[1..] == SplitRecords(tail);
    assert Packets(From(rs, first)) == [r] + rest;
  }

  /**
   * Round trip: well-framed records written back to back come back as
   * exactly those records, in order.
   */
  lemma RoundTrip(rs: seq<string>)
    requires rs != []
    requires forall i :: 0 <= i < |rs| ==> WellFramed(rs[i])
    ensures Packets(Concat(rs)) == rs
  {
    RoundTripFrom(rs, true);
  }

  /**
   * Without the condition on the brace right inside each end the round trip
   * fails: "{a}}" and "{b}" come back as "{a}" and "{b}".
   */
  lemma InnerBraceBreaksRoundTrip()
    ensures Packets(Concat(["{a}}", "{b}"])) == ["{a}", "{b}"]
  {
    assert Concat(["{a}}", "{b}"]) == "{a}" + "}{" + "b}";
    assert NoBoundary("{a}");
    SplitAfter("{a}", "b}");
    NoBoundarySplit("b}");
    assert SplitRecords(Concat(["{a}}", "{b}"])) == ["{a}", "b}"];
    assert Reattach("{a}") == "{a}";
    assert Reattach("b}") == "{b}";
    assert ReattachAll(["{a}", "b}"]) == ["{a}", "{b}"];
  }
}
