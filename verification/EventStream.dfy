/** The event stream on the wire: printed as frames, cut anywhere, parsed again from a growing buffer. */
module EventStream {
  import opened Wrappers

  const LIMIT := 65536

  /** What the server writes: a named event with one line of data, or the keepalive comment. */
  datatype Message = Event(name: string, data: string) | KeepAlive

  function Body(m: Message): string {
    match m
    case Event(name, data) => "event: " + name + "\n" + ("data: " + data)
    case KeepAlive => ": keepalive"
  }

  function Frame(m: Message): string {
    Body(m) + "\n\n"
  }

  function Print(ms: seq<Message>): string {
    if ms == [] then "" else Frame(ms[0]) + Print(ms[1..])
  }

  predicate OneLine(s: string) {
    s != "" && '\n' !in s
  }

  predicate Printable(m: Message) {
    m.Event? ==> OneLine(m.name) && OneLine(m.data)
  }

  /** What the page is told about. */
  function Pairs(ms: seq<Message>): seq<(string, string)> {
    if ms == [] then []
    else (if ms[0].Event? then [(ms[0].name, ms[0].data)] else []) + Pairs(ms[1..])
  }

  // ---------- the parser ----------

  function StartsWith(s: string, prefix: string): bool {
    |s| >= |prefix| && s[..|prefix|] == prefix
  }

  predicate BlankAt(s: string, i: nat) {
    i + 1 < |s| && s[i] == '\n' && s[i + 1] == '\n'
  }

  /** indexOf of an empty line, from position i. */
  function FindBlank(s: string, i: nat := 0): (r: Option<nat>)
    ensures r.Some? ==> i <= r.value && BlankAt(s, r.value)
    ensures forall k: nat :: i <= k < (if r.Some? then r.value else |s|) ==> !BlankAt(s, k)
    decreases |s| - i
  {
    if i >= |s| then None
    else if BlankAt(s, i) then Some(i)
    else FindBlank(s, i + 1)
  }

  function Newline(s: string, i: nat := 0): (r: Option<nat>)
    ensures r.Some? ==> i <= r.value < |s| && s[r.value] == '\n'
    ensures forall k: nat :: i <= k < (if r.Some? then r.value else |s|) ==> s[k] != '\n'
    decreases |s| - i
  {
    if i >= |s| then None
    else if s[i] == '\n' then Some(i)
    else Newline(s, i + 1)
  }

  function Lines(s: string): seq<string>
    decreases |s|
  {
    var n := Newline(s);
    if n.None? then [s] else [s[..n.value]] + Lines(s[n.value + 1..])
  }

  /** The rest of the first line with this prefix; an absent line counts as empty. */
  function Field(lines: seq<string>, prefix: string): string {
    if lines == [] then ""
    else if StartsWith(lines[0], prefix) then lines[0][|prefix|..]
    else Field(lines[1..], prefix)
  }

  function PairIn(text: string): seq<(string, string)> {
    var lines := Lines(text);
    var event, data := Field(lines, "event: "), Field(lines, "data: ");
    if event != "" && data != "" then [(event, data)] else []
  }

  /** All complete frames at the front of the buffer, and what is left. */
  function Parse(buffer: string): (r: (seq<(string, string)>, string))
    ensures FindBlank(buffer).None? ==> r == ([], buffer)
    decreases |buffer|
  {
    var end := FindBlank(buffer);
    if end.None? then ([], buffer)
    else
      var (pairs, rest) := Parse(buffer[end.value + 2..]);
      (PairIn(buffer[..end.value]) + pairs, rest)
  }

  /** The reader loop of one connection. */
  class Parser {
    var buffer: string

    constructor ()
      ensures buffer == ""
    {
      buffer := "";
    }

    /** One chunk: append, give up when too much is buffered, then take out every complete frame. */
    method Feed(chunk: string) returns (result: Outcome<seq<(string, string)>>)
      modifies this
      ensures if |old(buffer) + chunk| > LIMIT then result.Refused?
              else result == Done(Parse(old(buffer) + chunk).0) && buffer == Parse(old(buffer) + chunk).1
    {
      hide FindBlank, PairIn;
      buffer := buffer + chunk;
      if |buffer| > LIMIT {
        return Refused;
      }
      var pairs := [];
      var end := FindBlank(buffer);
      while end.Some?
        invariant end == FindBlank(buffer)
        invariant pairs + Parse(buffer).0 == Parse(old(buffer) + chunk).0
                  && Parse(buffer).1 == Parse(old(buffer) + chunk).1
        decreases |buffer|
      {
        pairs := pairs + PairIn(buffer[..end.value]);
        buffer := buffer[end.value + 2..];
        end := FindBlank(buffer);
      }
      assert pairs + [] == pairs;
      return Done(pairs);
    }
  }

  /** A whole connection on values: every chunk in turn, or None once the buffer overflows. */
  function FeedAll(buffer: string, chunks: seq<string>): Option<(seq<(string, string)>, string)>
    decreases |chunks|
  {
    if chunks == [] then Some(([], buffer))
    else if |buffer + chunks[0]| > LIMIT then None
    else
      var (pairs, rest) := Parse(buffer + chunks[0]);
      var more := FeedAll(rest, chunks[1..]);
      if more.None? then None else Some((pairs + more.value.0, more.value.1))
  }

  function Joined(chunks: seq<string>): string {
    if chunks == [] then "" else chunks[0] + Joined(chunks[1..])
  }

  // ---------- cutting does not matter ----------

  lemma BlankOf(s: string, i: nat)
    requires BlankAt(s, i) && forall k: nat :: k < i ==> !BlankAt(s, k)
    ensures FindBlank(s) == Some(i)
  {
    var r := FindBlank(s);
    assert r.Some?;
  }

  /** Parsing two pieces one after the other is parsing them together. */
  lemma {:induction false} ParseInTwo(a: string, b: string)
    ensures Parse(a + b) == (Parse(a).0 + Parse(Parse(a).1 + b).0, Parse(Parse(a).1 + b).1)
    decreases |a|
  {
    hide FindBlank, PairIn;
    var end := FindBlank(a);
    if end.Some? {
      var i := end.value;
      forall k: nat | k < i
        ensures !BlankAt(a + b, k)
      {
        assert !BlankAt(a, k);
      }
      BlankOf(a + b, i);
      assert (a + b)[..i] == a[..i] && (a + b)[i + 2..] == a[i + 2..] + b;
      ParseInTwo(a[i + 2..], b);
      var first := PairIn(a[..i]);
      assert first + (Parse(a[i + 2..]).0 + Parse(Parse(a).1 + b).0)
        == (first + Parse(a[i + 2..]).0) + Parse(Parse(a).1 + b).0;
    } else {
      assert [] + Parse(a + b).0 == Parse(a + b).0;
    }
  }

  /** However a text is cut into chunks, what comes out is the parse of the whole, unless the buffer overflows. */
  lemma {:induction false} ChunksDoNotMatter(buffer: string, chunks: seq<string>)
    requires FindBlank(buffer).None?
    ensures FeedAll(buffer, chunks).Some? ==> FeedAll(buffer, chunks).value == Parse(buffer + Joined(chunks))
    decreases |chunks|
  {
    hide Parse, FindBlank;
    if chunks == [] {
      assert buffer + Joined(chunks) == buffer;
    } else if |buffer + chunks[0]| <= LIMIT {
      var first := Parse(buffer + chunks[0]);
      RestIsIncomplete(buffer + chunks[0]);
      ChunksDoNotMatter(first.1, chunks[1..]);
      ParseInTwo(buffer + chunks[0], Joined(chunks[1..]));
      assert buffer + Joined(chunks) == (buffer + chunks[0]) + Joined(chunks[1..]);
    }
  }

  lemma {:induction false} RestIsIncomplete(buffer: string)
    ensures FindBlank(Parse(buffer).1).None?
    decreases |buffer|
  {
    var end := FindBlank(buffer);
    if end.Some? {
      RestIsIncomplete(buffer[end.value + 2..]);
    }
  }

  // ---------- printing and parsing ----------

  lemma NewlineOf(a: string, b: string)
    requires '\n' !in a
    ensures Newline(a) == None
    ensures Newline(a + "\n" + b) == Some(|a|)
  {
    var s := a + "\n" + b;
    assert s[|a|] == '\n' && forall k: nat :: k < |a| ==> s[k] == a[k];
    assert Newline(s).Some?;
  }

  lemma TwoLines(first: string, second: string)
    requires '\n' !in first && '\n' !in second
    ensures Lines(first + "\n" + second) == [first, second]
  {
    var s := first + "\n" + second;
    NewlineOf(first, second);
    NewlineOf(second, "");
    assert s[..|first|] == first && s[|first| + 1..] == second;
  }

  lemma TwoFields(lines: seq<string>, prefix: string)
    requires |lines| == 2
    ensures Field(lines, prefix)
            == if StartsWith(lines[0], prefix) then lines[0][|prefix|..]
               else if StartsWith(lines[1], prefix) then lines[1][|prefix|..]
               else ""
  {
    assert lines[1..] == [lines[1]] && [lines[1]][1..] == [];
    assert Field([lines[1]], prefix)
        == if StartsWith(lines[1], prefix) then lines[1][|prefix|..] else Field([], prefix);
  }

  lemma BodyParses(m: Message)
    requires Printable(m)
    ensures PairIn(Body(m)) == if m.Event? then [(m.name, m.data)] else []
  {
    match m {
      case Event(name, data) =>
        var first, second := "event: " + name, "data: " + data;
        TwoLines(first, second);
        assert first[..7] == "event: " && first[7..] == name;
        assert second[..6] == "data: " && second[6..] == data;
        assert !StartsWith(first, "data: ") by { assert first[0] == 'e' && "data: "[0] == 'd'; }
        TwoFields([first, second], "event: ");
        TwoFields([first, second], "data: ");
      case KeepAlive =>
        NewlineOf(": keepalive", "");
        var line := ": keepalive";
        assert Lines(line) == [line];
        assert !StartsWith(line, "event: ") by { assert line[0] == ':' && "event: "[0] == 'e'; }
        assert !StartsWith(line, "data: ") by { assert line[0] == ':' && "data: "[0] == 'd'; }
    }
  }

  /** The first empty line of a frame is its end, whatever follows. */
  lemma FrameEnds(m: Message, rest: string)
    requires Printable(m)
    ensures FindBlank(Frame(m) + rest) == Some(|Body(m)|)
  {
    var s, body := Frame(m) + rest, Body(m);
    assert BlankAt(s, |body|);
    BodyHasNoBlank(m);
    forall k: nat | k < |body|
      ensures !BlankAt(s, k)
    {
      assert s[k] == body[k];
      if k + 1 < |body| { assert s[k + 1] == body[k + 1]; }
    }
    BlankOf(s, |body|);
  }

  lemma BodyHasNoBlank(m: Message)
    requires Printable(m)
    ensures Body(m) != "" && Body(m)[|Body(m)| - 1] != '\n'
    ensures forall k: nat :: k + 1 < |Body(m)| ==> !(Body(m)[k] == '\n' && Body(m)[k + 1] == '\n')
  {
    var body := Body(m);
    if m.Event? {
      var first, second := "event: " + m.name, "data: " + m.data;
      assert body == first + "\n" + second && second[|second| - 1] == m.data[|m.data| - 1];
      forall k: nat | k < |body|
        ensures body[k] == '\n' <==> k == |first|
      {
        NewlineOnlyBetween(first, second, k);
      }
    }
  }

  lemma NewlineOnlyBetween(first: string, second: string, k: nat)
    requires '\n' !in first && '\n' !in second && k < |first + "\n" + second|
    ensures (first + "\n" + second)[k] == '\n' <==> k == |first|
  {
    assert (first + "\n" + second)[k]
        == if k < |first| then first[k] else if k == |first| then '\n' else second[k - |first| - 1];
  }

  lemma FrameParses(m: Message, rest: string)
    requires Printable(m)
    ensures Parse(Frame(m) + rest) == ((if m.Event? then [(m.name, m.data)] else []) + Parse(rest).0, Parse(rest).1)
  {
    FrameEnds(m, rest);
    BodyParses(m);
    var s := Frame(m) + rest;
    assert s[..|Body(m)|] == Body(m) && s[|Body(m)| + 2..] == rest;
  }

  ghost predicate AllPrintable(ms: seq<Message>) {
    forall i :: 0 <= i < |ms| ==> Printable(ms[i])
  }

  lemma {:induction false} PrintedParses(ms: seq<Message>)
    requires AllPrintable(ms)
    ensures Parse(Print(ms)) == (Pairs(ms), "")
  {
    if ms != [] {
      PrintedParses(ms[1..]);
      FrameParses(ms[0], Print(ms[1..]));
    }
  }

  /** The round trip: however the printed stream is cut into chunks, exactly its pairs come out, in order, with nothing
      left over, unless the buffer overflows. */
  lemma StreamRoundTrip(ms: seq<Message>, chunks: seq<string>)
    requires AllPrintable(ms) && Joined(chunks) == Print(ms)
    ensures FeedAll("", chunks).Some? ==> FeedAll("", chunks).value == (Pairs(ms), "")
  {
    ChunksDoNotMatter("", chunks);
    PrintedParses(ms);
    assert "" + Joined(chunks) == Joined(chunks);
  }

  // ---------- when the buffer stays small ----------

  /** A stream cut short: the complete frames have been told about, and only part of one frame is waiting. */
  lemma {:induction false} CutShort(ms: seq<Message>, text: string) returns (k: nat)
    requires AllPrintable(ms) && text <= Print(ms)
    ensures k <= |ms| && Parse(text).0 == Pairs(ms[..k])
    ensures text == Print(ms[..k]) + Parse(text).1
    ensures if k < |ms| then |Parse(text).1| < |Frame(ms[k])| else Parse(text).1 == ""
  {
    hide Parse, Frame, FindBlank, Printable, Print, Pairs;
    if ms == [] {
      k := 0;
      NothingCut(text);
    } else {
      var f := Frame(ms[0]);
      PrintHead(ms);
      if |text| < |f| {
        k := 0;
        PartOfFrame(ms[0], Print(ms[1..]), text);
        NoneYet(ms);
      } else {
        var rest := text[|f|..];
        PastFrame(f, Print(ms[1..]), text);
        var j := CutShort(ms[1..], rest);
        FrameParses(ms[0], rest);
        k := j + 1;
        OneMore(ms, j);
      }
    }
  }

  lemma NothingCut(text: string)
    requires text <= Print([])
    ensures Parse(text) == ([], "") && Pairs([]) == [] && text == Print([])
  {
  }

  lemma PrintHead(ms: seq<Message>)
    requires ms != []
    ensures Print(ms) == Frame(ms[0]) + Print(ms[1..])
  {
  }

  lemma NoneYet(ms: seq<Message>)
    ensures Print(ms[..0]) == "" && Pairs(ms[..0]) == []
  {
  }

  lemma OneMore(ms: seq<Message>, j: nat)
    requires ms != [] && j <= |ms| - 1
    ensures Print(ms[..j + 1]) == Frame(ms[0]) + Print(ms[1..][..j])
    ensures Pairs(ms[..j + 1]) == (if ms[0].Event? then [(ms[0].name, ms[0].data)] else []) + Pairs(ms[1..][..j])
  {
    assert ms[..j + 1][0] == ms[0] && ms[..j + 1][1..] == ms[1..][..j];
  }

  lemma PastFrame(f: string, more: string, text: string)
    requires text <= f + more && |text| >= |f|
    ensures text == f + text[|f|..] && text[|f|..] <= more
  {
    assert text[..|f|] == (f + more)[..|f|] == f;
    assert text[|f|..] == (f + more)[..|text|][|f|..];
  }

  /** Part of a frame holds no empty line yet. */
  lemma PartOfFrame(m: Message, more: string, text: string)
    requires Printable(m) && text <= Frame(m) + more && |text| < |Frame(m)|
    ensures Parse(text) == ([], text)
  {
    FrameEnds(m, more);
    var s := Frame(m) + more;
    forall i: nat | i < |text|
      ensures !BlankAt(text, i)
    {
      assert BlankAt(text, i) ==> i < |Body(m)| && BlankAt(s, i);
    }
  }

  ghost predicate Fits(ms: seq<Message>, chunks: seq<string>, frame: nat, chunk: nat) {
    && frame + chunk <= LIMIT
    && (forall i :: 0 <= i < |ms| ==> |Frame(ms[i])| <= frame)
    && (forall i :: 0 <= i < |chunks| ==> |chunks[i]| <= chunk)
  }

  lemma RestFits(ms: seq<Message>, text: string, frame: nat)
    requires AllPrintable(ms) && text <= Print(ms) && forall i :: 0 <= i < |ms| ==> |Frame(ms[i])| <= frame
    ensures |Parse(text).1| < frame || Parse(text).1 == ""
  {
    var k := CutShort(ms, text);
  }

  /** The limit is never hit when the longest frame and the longest chunk together stay within it. */
  lemma {:induction false} NeverOverflows(ms: seq<Message>, before: string, chunks: seq<string>, frame: nat, chunk: nat)
    requires AllPrintable(ms) && Fits(ms, chunks, frame, chunk) && before + Joined(chunks) <= Print(ms)
    ensures FeedAll(Parse(before).1, chunks).Some?
    decreases |chunks|
  {
    if chunks != [] {
      FitsRest(ms, chunks, frame, chunk);
      OneChunk(ms, before, chunks[0], Joined(chunks[1..]), frame, chunk);
      hide Parse, Print, FindBlank, AllPrintable, Frame, Fits, FeedAll;
      NeverOverflows(ms, before + chunks[0], chunks[1..], frame, chunk);
      FeedStep(Parse(before).1, chunks);
    }
  }

  lemma OneChunk(ms: seq<Message>, before: string, c: string, more: string, frame: nat, chunk: nat)
    requires AllPrintable(ms) && before + (c + more) <= Print(ms)
    requires frame + chunk <= LIMIT && |c| <= chunk && forall i :: 0 <= i < |ms| ==> |Frame(ms[i])| <= frame
    ensures before + c + more == before + (c + more)
    ensures |Parse(before).1 + c| <= LIMIT && Parse(before + c).1 == Parse(Parse(before).1 + c).1
  {
    hide Parse, Print, FindBlank, AllPrintable, Frame;
    assert before <= before + (c + more);
    RestFits(ms, before, frame);
    ParseInTwo(before, c);
  }

  lemma FitsRest(ms: seq<Message>, chunks: seq<string>, frame: nat, chunk: nat)
    requires Fits(ms, chunks, frame, chunk) && chunks != []
    ensures Fits(ms, chunks[1..], frame, chunk) && frame + chunk <= LIMIT && |chunks[0]| <= chunk
    ensures forall i :: 0 <= i < |ms| ==> |Frame(ms[i])| <= frame
  {
  }

  lemma FeedStep(buffer: string, chunks: seq<string>)
    requires chunks != [] && |buffer + chunks[0]| <= LIMIT && FeedAll(Parse(buffer + chunks[0]).1, chunks[1..]).Some?
    ensures FeedAll(buffer, chunks).Some?
  {
  }

  /** With such frames and chunks the round trip holds outright. */
  lemma BoundedStreamArrives(ms: seq<Message>, chunks: seq<string>, frame: nat, chunk: nat)
    requires AllPrintable(ms) && Fits(ms, chunks, frame, chunk) && Joined(chunks) == Print(ms)
    ensures FeedAll("", chunks) == Some((Pairs(ms), ""))
  {
    assert "" + Joined(chunks) == Print(ms);
    NeverOverflows(ms, "", chunks, frame, chunk);
    StreamRoundTrip(ms, chunks);
  }

  /** The limit in characters: what is waiting and the next chunk together may have 64 Ki of them, and no more. */
  lemma GivesUpIff(buffer: string, chunk: string)
    ensures FeedAll(buffer, [chunk]).None? <==> |buffer| + |chunk| > 65536
  {
    hide Parse;
    assert FeedAll(Parse(buffer + chunk).1, [chunk][1..]).Some?;
  }

  /** On the wire, letter by letter. */
  lemma FrameText(name: string, data: string)
    ensures Frame(Event(name, data)) == "event: " + (name + ("\ndata: " + (data + "\n\n")))
    ensures Frame(KeepAlive) == ": keepalive\n\n"
  {
    var f := Frame(Event(name, data));
    assert f == "event: " + name + "\n" + ("data: " + data) + "\n\n";
    assert "\n" + "data: " == "\ndata: ";
  }
}
