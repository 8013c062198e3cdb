/**
 * The line protocol of src/libtetrisdb/wire.c: a buffered reader over a descriptor that hands out
 * its bytes in arbitrary pieces, and the responses that end in a marker line.
 */
module LineProtocol {
  import opened CodecBody
  import opened TextLines
  import H = Htttp

  const LINE_MAX := 1024
  const READ_MAX := 4096
  const MARK := "<<END "

  /** How a descriptor stops yielding bytes. */
  datatype Ending = Eof | Broken | Late

  /** What one wait and read yields. */
  datatype Event = Chunk(bytes: string) | Again | Ended(how: Ending)

  datatype LineStatus = Line | NoLine(why: Ending)

  datatype Status = Ok | Retry | Error | Io | Timeout

  /** The byte stream, whatever pieces it comes in. */
  function Bytes(feed: seq<Event>): string
  {
    if feed == [] then ""
    else match feed[0]
         case Chunk(bytes) => bytes + Bytes(feed[1..])
         case Again => Bytes(feed[1..])
         case Ended(_) => ""
  }

  /** How it ends; a descriptor that stays silent meets the deadline. */
  function End(feed: seq<Event>): Ending
  {
    if feed == [] then Late
    else match feed[0]
         case Ended(how) => how
         case _ => End(feed[1..])
  }

  /** What the caller sees of a line: at most 1023 bytes, up to a NUL; the excess is discarded. */
  function Seen(line: string): string { H.CString(Cut(line, LINE_MAX)) }

  predicate Marks(line: string) { MARK <= line }

  function Classify(line: string): Status
  {
    if line == "<<END ok>>" then Ok else if line == "<<END retry>>" then Retry else Error
  }

  /** One more line in a body of that capacity; a line feed precedes it unless the body is empty. */
  function Grow(body: string, line: string, cap: nat): (r: string)
    ensures |body| < cap || body == "" ==> |r| < cap || r == ""
  {
    if |body| + 1 < cap then body + Cut((if body == "" then "" else "\n") + line, cap - |body|) else body
  }

  /** A response, and the bytes left for the next one. */
  datatype Reply = Reply(status: Status, body: string, rest: string)

  /** The response at the front of a stream. */
  function Respond(s: string, end: Ending, body: string, cap: nat): Reply
    decreases |s|
  {
    var i := H.IndexOf(s, '\n');
    if i == |s| then Reply(if end.Late? then Timeout else Io, body, "")
    else if Marks(Seen(s[..i])) then Reply(Classify(Seen(s[..i])), body, s[i + 1..])
    else Respond(s[i + 1..], end, Grow(body, Seen(s[..i]), cap), cap)
  }

  class Reader {
    const buf: array<char>
    var len: nat
    var pos: nat
    var feed: seq<Event>

    ghost predicate Valid()
      reads this
    {
      && pos <= len <= buf.Length
      && forall i :: 0 <= i < |feed| && feed[i].Chunk? ==> 0 < |feed[i].bytes| <= buf.Length
    }

    constructor (events: seq<Event>)
      requires forall i :: 0 <= i < |events| && events[i].Chunk? ==> 0 < |events[i].bytes| <= READ_MAX
      ensures Valid() && fresh(buf) && Stream() == Bytes(events) && End(feed) == End(events)
    {
      buf := new char[READ_MAX](_ => ' ');
      len, pos, feed := 0, 0, events;
    }

    /** Everything still to be read. */
    ghost function Stream(): string
      requires Valid()
      reads this, buf
    {
      buf[pos..len] + Bytes(feed)
    }

    method Load(bytes: string)
      requires |bytes| <= buf.Length
      modifies buf
      ensures buf[..|bytes|] == bytes
    {
      for i := 0 to |bytes|
        invariant buf[..i] == bytes[..i]
      {
        buf[i] := bytes[i];
      }
    }

    /** One wait and read into the empty buffer; `more` when the loop goes on. */
    method Fill() returns (more: bool, why: Ending)
      requires Valid() && pos == len
      modifies this`len, this`pos, this`feed, buf
      ensures Valid()
      ensures more ==> Stream() == old(Stream()) && End(feed) == old(End(feed)) && |feed| < |old(feed)|
      ensures !more ==> old(Stream()) == "" && why == old(End(feed))
    {
      if feed == [] {
        return false, Late;
      }
      var e := feed[0];
      match e
      case Ended(how) =>
        return false, how;
      case Again =>
        feed := feed[1..];
        return true, Late;
      case Chunk(bytes) =>
        Load(bytes);
        len, pos, feed := |bytes|, 0, feed[1..];
        assert buf[pos..len] == bytes;
        return true, Late;
    }

    /** Reads until there are bytes in the buffer, or no more will come. */
    method Refill() returns (more: bool, why: Ending)
      requires Valid()
      modifies this`len, this`pos, this`feed, buf
      ensures Valid()
      ensures more ==> pos < len && Stream() == old(Stream()) && End(feed) == old(End(feed))
      ensures !more ==> old(Stream()) == "" && why == old(End(feed))
    {
      more, why := true, Late;
      while more && pos == len
        invariant Valid()
        invariant more ==> Stream() == old(Stream()) && End(feed) == old(End(feed))
        invariant !more ==> old(Stream()) == "" && why == old(End(feed))
        decreases more, |feed|
      {
        more, why := Fill();
      }
    }

    /** The inner loop over the buffered bytes. */
    method Scan(kept: string, cap: nat) returns (found: bool, line: string)
      requires Valid() && |kept| < cap
      modifies this`pos
      ensures Valid()
      ensures var taken := old(buf[pos..len]); var i := H.IndexOf(taken, '\n');
              && line == Cut(kept + taken[..i], cap)
              && (found <==> i < |taken|)
              && buf[pos..len] == if found then taken[i + 1..] else ""
    {
      var i;
      i, line := Collect(buf[pos..len], kept, cap);
      found := i < len - pos;
      pos := if found then pos + i + 1 else len;
    }

    /** db_wire_line: the first line of the stream, however it was cut into reads. */
    method ReadLine(cap: nat) returns (r: LineStatus, line: string)
      requires Valid() && cap > 0
      modifies this`len, this`pos, this`feed, buf
      ensures Valid()
      ensures var s := old(Stream()); var i := H.IndexOf(s, '\n');
              if i < |s| then r == Line && line == H.CString(Cut(s[..i], cap)) && Stream() == s[i + 1..]
                              && End(feed) == old(End(feed))
              else r == NoLine(old(End(feed)))
    {
      var raw, found := "", false;
      ghost var s, past := Stream(), "";
      while !found
        invariant Valid() && End(feed) == old(End(feed))
        invariant !found ==> Passed(s, cap, raw, past, Stream())
        invariant found ==> Took(s, cap, raw, Stream())
        decreases !found, |Stream()|
      {
        var more, why := Refill();
        if !more {
          Unfinished(s, past);
          return NoLine(why), H.CString(raw);
        }
        ghost var taken, after := buf[pos..len], Bytes(feed);
        found, raw := Scan(raw, cap);
        Scanned(s, past, taken, after, raw, cap);
        past := past + taken;
      }
      return Line, H.CString(raw);
    }

    /** db_wire_response: the response at the front of the stream, and nothing beyond it. */
    method Response(cap: nat) returns (status: Status, body: string)
      requires Valid()
      modifies this`len, this`pos, this`feed, buf
      ensures Valid()
      ensures var reply := Respond(old(Stream()), old(End(feed)), "", cap);
              && status == reply.status && body == reply.body
              && (status != Io && status != Timeout ==> Stream() == reply.rest && End(feed) == old(End(feed)))
    {
      body := "";
      ghost var reply := Respond(Stream(), End(feed), "", cap);
      while true
        invariant Valid() && reply == Respond(Stream(), End(feed), body, cap) && End(feed) == old(End(feed))
        decreases |Stream()|
      {
        var r, line := ReadLine(LINE_MAX);
        if r.NoLine? {
          status := if r.why.Late? then Timeout else Io;
          return;
        }
        if Marks(line) {
          status := Classify(line);
          return;
        }
        body := Grow(body, line, cap);
      }
    }
  }

  // ---- one response after another -----------------------------------------------

  /** What a runner writes for one statement: lines, then its marker line. */
  datatype Written = Written(lines: seq<string>, marker: string)

  function WrittenText(w: Written): string
  {
    LinesText(w.lines) + w.marker + "\n"
  }

  function LinesText(lines: seq<string>): string
  {
    if lines == [] then "" else lines[0] + "\n" + LinesText(lines[1..])
  }

  /** The marker line the runner prints for an outcome. */
  function MarkerText(s: Status): string
    requires s.Ok? || s.Retry? || s.Error?
  {
    "<<END " + (match s case Ok => "ok" case Retry => "retry" case _ => "error") + ">>"
  }

  /** The line reports that outcome: the runner printed it for it, or, for an error, it is no print of
      the runner's for success or retry. */
  predicate Reports(line: string, s: Status)
  {
    match s
    case Ok => line == MarkerText(Ok)
    case Retry => line == MarkerText(Retry)
    case Error => line != MarkerText(Ok) && line != MarkerText(Retry)
    case _ => false
  }

  lemma MarkersDiffer()
    ensures MarkerText(Ok) == "<<END ok>>" && MarkerText(Retry) == "<<END retry>>"
    ensures |MarkerText(Ok)| == 10 && |MarkerText(Retry)| == 13 && |MarkerText(Error)| == 13
    ensures MarkerText(Error)[6] == 'e' && MarkerText(Retry)[6] == 'r'
  {
  }

  /** Each of the runner's markers is a marker line, and reports the outcome it was printed for. */
  lemma MarkersPrinted(s: Status)
    requires s.Ok? || s.Retry? || s.Error?
    ensures Marks(Seen(MarkerText(s))) && '\n' !in MarkerText(s) && Reports(Seen(MarkerText(s)), s)
  {
    MarkersDiffer();
    var line := MarkerText(s);
    H.IndexIs(line, H.NUL, |line|);
    assert Seen(line) == line;
  }

  /** A marker line is taken for the outcome it reports, and for no other. */
  lemma ReportsRead(line: string, s: Status)
    ensures Classify(line) == s <==> Reports(line, s)
  {
    MarkersDiffer();
  }

  /** The marker is one, and neither it nor any line is broken. */
  predicate WellWritten(w: Written)
  {
    Free(w.lines, '\n') && '\n' !in w.marker && Marks(Seen(w.marker))
  }

  predicate Unmarked(lines: seq<string>)
  {
    forall i :: 0 <= i < |lines| ==> !Marks(Seen(lines[i]))
  }

  function GrowAll(body: string, lines: seq<string>, cap: nat): string
    decreases |lines|
  {
    if lines == [] then body else GrowAll(Grow(body, Seen(lines[0]), cap), lines[1..], cap)
  }

  lemma FirstLine(line: string, more: string, end: Ending, body: string, cap: nat)
    requires '\n' !in line
    ensures Respond(line + "\n" + more, end, body, cap)
         == if Marks(Seen(line)) then Reply(Classify(Seen(line)), body, more)
            else Respond(more, end, Grow(body, Seen(line), cap), cap)
  {
    var s := line + "\n" + more;
    H.IndexIs(s, '\n', |line|);
    assert s[..|line|] == line && s[|line| + 1..] == more;
  }

  /** A response consumes exactly through its own marker if and only if no line above the
      marker starts like one. */
  lemma {:induction false} OwnMarker(w: Written, more: string, end: Ending, body: string, cap: nat)
    requires WellWritten(w)
    ensures Respond(WrittenText(w) + more, end, body, cap).rest == more <==> Unmarked(w.lines)
    ensures Unmarked(w.lines) ==>
              var reply := Respond(WrittenText(w) + more, end, body, cap);
              Reports(Seen(w.marker), reply.status) && reply.body == GrowAll(body, w.lines, cap) && reply.rest == more
    decreases |w.lines|
  {
    ReportsRead(Seen(w.marker), Classify(Seen(w.marker)));
    if w.lines == [] {
      assert WrittenText(w) + more == w.marker + "\n" + more;
      FirstLine(w.marker, more, end, body, cap);
    } else {
      var line, rest := w.lines[0], w.(lines := w.lines[1..]);
      var after := WrittenText(rest) + more;
      assert WrittenText(w) + more == line + "\n" + after;
      FirstLine(line, after, end, body, cap);
      if !Marks(Seen(line)) {
        OwnMarker(rest, more, end, Grow(body, Seen(line), cap), cap);
        assert Unmarked(w.lines) <==> Unmarked(rest.lines) by {
          assert forall i :: 0 < i < |w.lines| ==> w.lines[i] == rest.lines[i - 1];
        }
      } else {
        assert |after| > |more|;
      }
    }
  }

  /** Each line with a line feed before it. */
  function Following(lines: seq<string>): string
  {
    if lines == [] then "" else "\n" + Seen(lines[0]) + Following(lines[1..])
  }

  lemma {:induction false} GrowsBy(body: string, lines: seq<string>, cap: nat)
    requires body != "" && |body| < cap
    ensures GrowAll(body, lines, cap) == Cut(body + Following(lines), cap)
    decreases |lines|
  {
    if lines == [] {
      assert body + "" == body;
    } else {
      var line := Seen(lines[0]);
      GrowLine(body, line, Following(lines[1..]), cap);
      GrowsBy(Grow(body, line, cap), lines[1..], cap);
    }
  }

  lemma GrowLine(body: string, line: string, rest: string, cap: nat)
    requires body != "" && |body| < cap
    ensures Grow(body, line, cap) != "" && |Grow(body, line, cap)| < cap
    ensures Cut(Grow(body, line, cap) + rest, cap) == Cut(body + ("\n" + line + rest), cap)
  {
    var step := "\n" + line;
    GrowOnce(body, step, cap);
    CutTwice(body + step, rest, cap);
    assert body + step + rest == body + (step + rest);
  }

  lemma GrowOnce(body: string, step: string, cap: nat)
    requires |body| < cap
    ensures (if |body| + 1 < cap then body + Cut(step, cap - |body|) else body) == Cut(body + step, cap)
  {
  }

  /** The lines from the first non-empty one on. */
  function Started(lines: seq<string>): seq<string>
  {
    if lines == [] || Seen(lines[0]) != "" then lines else Started(lines[1..])
  }

  /** The text a body stands for: its lines as seen, less the empty ones it starts with. */
  function BodyText(lines: seq<string>): string
  {
    var from := Started(lines);
    if from == [] then "" else Seen(from[0]) + Following(from[1..])
  }

  /** A body is the text of its lines cut to the caller's buffer. */
  lemma {:induction false} BodyIs(lines: seq<string>, cap: nat)
    requires cap > 0
    ensures GrowAll("", lines, cap) == Cut(BodyText(lines), cap)
    decreases |lines|
  {
    if lines != [] {
      var first := Seen(lines[0]);
      GrowOnce("", first, cap);
      assert "" + first == first;
      if first == "" {
        BodyIs(lines[1..], cap);
      } else if cap == 1 {
        NoRoom(lines[1..]);
      } else {
        GrowsBy(Cut(first, cap), lines[1..], cap);
        CutTwice(first, Following(lines[1..]), cap);
      }
    }
  }

  lemma {:induction false} NoRoom(lines: seq<string>)
    ensures GrowAll("", lines, 1) == ""
    decreases |lines|
  {
    if lines != [] {
      NoRoom(lines[1..]);
    }
  }

  function AllText(replies: seq<Written>): string
  {
    if replies == [] then "" else WrittenText(replies[0]) + AllText(replies[1..])
  }

  /** What is left after k responses have been read. */
  function After(s: string, end: Ending, caps: seq<nat>): string
    decreases |caps|
  {
    if caps == [] then s else After(Respond(s, end, "", caps[0]).rest, end, caps[1..])
  }

  /** Statement k gets the outcome, the lines and nothing but them that reply k was written with, whatever
      the capacities of the earlier bodies. */
  lemma {:induction false} Paired(replies: seq<Written>, end: Ending, caps: seq<nat>, cap: nat)
    requires |caps| < |replies|
    requires forall i :: 0 <= i < |replies| ==> WellWritten(replies[i]) && Unmarked(replies[i].lines)
    ensures var mine := replies[|caps|];
            var reply := Respond(After(AllText(replies), end, caps), end, "", cap);
            && Reports(Seen(mine.marker), reply.status) && reply.body == GrowAll("", mine.lines, cap)
            && reply.rest == AllText(replies[|caps| + 1..])
    decreases |caps|
  {
    if caps == [] {
      OwnMarker(replies[0], AllText(replies[1..]), end, "", cap);
    } else {
      OwnMarker(replies[0], AllText(replies[1..]), end, "", caps[0]);
      Paired(replies[1..], end, caps[1..], cap);
      assert replies[1..][|caps|..] == replies[|caps| + 1..];
    }
  }

  /** A reply printed for an outcome is answered with that outcome. */
  lemma OutcomeArrives(lines: seq<string>, s: Status, more: string, end: Ending, cap: nat)
    requires (s.Ok? || s.Retry? || s.Error?) && Free(lines, '\n') && Unmarked(lines)
    ensures Respond(WrittenText(Written(lines, MarkerText(s))) + more, end, "", cap)
         == Reply(s, GrowAll("", lines, cap), more)
  {
    var w := Written(lines, MarkerText(s));
    MarkersPrinted(s);
    OwnMarker(w, more, end, "", cap);
    ReportsRead(Seen(w.marker), s);
    ReportsRead(Seen(w.marker), Respond(WrittenText(w) + more, end, "", cap).status);
  }

  /** Two readers of the same bytes get the same response, however the bytes were cut into reads. */
  method ReadTwice(a: Reader, b: Reader, cap: nat)
    returns (statusA: Status, bodyA: string, statusB: Status, bodyB: string)
    requires a != b && a.buf != b.buf && a.Valid() && b.Valid()
    requires a.Stream() == b.Stream() && End(a.feed) == End(b.feed)
    modifies a, b, a.buf, b.buf
    ensures a.Valid() && b.Valid() && statusA == statusB && bodyA == bodyB
    ensures statusA != Io && statusA != Timeout ==> a.Stream() == b.Stream() && End(a.feed) == End(b.feed)
  {
    statusA, bodyA := a.Response(cap);
    statusB, bodyB := b.Response(cap);
  }

  /** Bytes up to a line feed, keeping what fits. */
  method Collect(taken: string, kept: string, cap: nat) returns (i: nat, line: string)
    requires |kept| < cap
    ensures i == H.IndexOf(taken, '\n') && line == Cut(kept + taken[..i], cap)
  {
    i, line := 0, kept;
    assert kept + taken[..0] == kept;
    while i < |taken| && taken[i] != '\n'
      invariant 0 <= i <= |taken|
      invariant forall j :: 0 <= j < i ==> taken[j] != '\n'
      invariant line == Cut(kept + taken[..i], cap)
    {
      CutMore(kept, taken, i, cap);
      line := Kept(line, taken[i], cap);
      i := i + 1;
    }
    H.IndexIs(taken, '\n', i);
  }

  /** The line was taken off the front of the stream. */
  predicate Took(s: string, cap: nat, line: string, rest: string)
    requires cap > 0
  {
    var k := H.IndexOf(s, '\n');
    k < |s| && line == Cut(s[..k], cap) && rest == s[k + 1..]
  }

  lemma Unfinished(s: string, past: string)
    requires s == past + "" && '\n' !in past
    ensures H.IndexOf(s, '\n') == |s|
  {
    H.IndexIs(s, '\n', |s|);
  }

  /** One byte more, if it fits. */
  function Kept(line: string, c: char, cap: nat): string
  {
    if |line| + 1 < cap then line + [c] else line
  }

  lemma CutMore(kept: string, taken: string, k: nat, cap: nat)
    requires cap > 0 && k < |taken|
    ensures Kept(Cut(kept + taken[..k], cap), taken[k], cap) == Cut(kept + taken[..k + 1], cap)
  {
    assert kept + taken[..k + 1] == kept + taken[..k] + [taken[k]];
  }

  lemma CutTwice(a: string, b: string, cap: nat)
    requires cap > 0
    ensures Cut(Cut(a, cap) + b, cap) == Cut(a + b, cap)
  {
  }

  /** What a scan of the buffered bytes says about the stream. */
  lemma Scanned(s: string, past: string, taken: string, after: string, line: string, cap: nat)
    requires cap > 0 && s == past + (taken + after) && '\n' !in past
    requires line == Cut(Cut(past, cap) + taken[..H.IndexOf(taken, '\n')], cap)
    ensures var i := H.IndexOf(taken, '\n');
            if i < |taken| then Took(s, cap, line, taken[i + 1..] + after) else Passed(s, cap, line, past + taken, after)
  {
    var i := H.IndexOf(taken, '\n');
    CutTwice(past, taken[..i], cap);
    if i < |taken| {
      Found(s, past, taken, after, i);
    } else {
      assert taken[..i] == taken;
      assert past + (taken + after) == past + taken + after;
    }
  }

  /** So much of the stream has been read without meeting a line feed. */
  predicate Passed(s: string, cap: nat, line: string, past: string, rest: string)
    requires cap > 0
  {
    s == past + rest && '\n' !in past && line == Cut(past, cap)
  }

  lemma Found(s: string, past: string, taken: string, after: string, i: nat)
    requires s == past + (taken + after) && '\n' !in past && i < |taken| && i == H.IndexOf(taken, '\n')
    ensures H.IndexOf(s, '\n') == |past| + i && s[..|past| + i] == past + taken[..i]
    ensures s[|past| + i + 1..] == taken[i + 1..] + after
  {
    H.IndexIs(s, '\n', |past| + i);
  }
}
