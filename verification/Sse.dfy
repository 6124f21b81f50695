/**
 * Server-sent events: the hub's printer, okio's line reader, and the app's line-fed parser.
 * A printed sequence of frames reads back as the same events exactly when every frame's data
 * and event name survive line reading; section 9.2.6 of the WHATWG HTML standard.
 */
module Sse {
  import opened Basics

  // ---- lines ----

  predicate OneLine(s: string) { '\n' !in s }

  /** The pieces of `s` between line feeds; always at least one. */
  function Split(s: string): (lines: seq<string>)
    ensures |lines| >= 1 && forall i :: 0 <= i < |lines| ==> OneLine(lines[i])
  {
    if s == "" then [""]
    else if s[0] == '\n' then [""] + Split(s[1..])
    else
      var rest := Split(s[1..]);
      assert OneLine(rest[0]);
      [[s[0]] + rest[0]] + rest[1..]
  }

  function Join(lines: seq<string>): string
    requires lines != []
  {
    if |lines| == 1 then lines[0] else lines[0] + "\n" + Join(lines[1..])
  }

  lemma {:induction false} JoinSplit(s: string)
    ensures Join(Split(s)) == s
  {
    if s != "" {
      JoinSplit(s[1..]);
      var rest := Split(s[1..]);
      if s[0] == '\n' {
        assert ([""] + rest)[1..] == rest;
        assert "" + "\n" + s[1..] == s;
      } else {
        var lines := [[s[0]] + rest[0]] + rest[1..];
        assert lines[1..] == rest[1..];
        assert s == [s[0]] + s[1..];
      }
    }
  }

  lemma {:induction false} SplitFirst(s: string, k: nat)
    requires k < |s| && s[k] == '\n' && OneLine(s[..k])
    ensures Split(s) == [s[..k]] + Split(s[k + 1..])
  {
    if k > 0 {
      assert s[0] in s[..k];
      assert s[1..][..k - 1] == s[1..k];
      SplitFirst(s[1..], k - 1);
      assert s[..k] == [s[0]] + s[1..k];
      assert s[1..][k - 1 + 1..] == s[k + 1..];
    } else {
      assert s[..0] == "";
    }
  }

  lemma {:induction false} SplitOneLine(s: string)
    requires OneLine(s)
    ensures Split(s) == [s]
  {
    if s != "" {
      assert s[0] in s && s[0] != '\n';
      SplitOneLine(s[1..]);
      assert s == [s[0]] + s[1..];
    }
  }

  method SplitLines(b: string) returns (out: seq<string>)
    ensures out == Split(b)
  {
    hide Split;
    out := [];
    var start, i := 0, 0;
    while i < |b|
      invariant 0 <= start <= i <= |b| && OneLine(b[start..i])
      invariant Split(b) == out + Split(b[start..])
    {
      if b[i] == '\n' {
        SplitAt(b, start, i);
        assert out + ([b[start..i]] + Split(b[i + 1..])) == out + [b[start..i]] + Split(b[i + 1..]);
        out := out + [b[start..i]];
        start := i + 1;
      } else {
        assert b[start..i + 1] == b[start..i] + [b[i]];
      }
      i := i + 1;
    }
    assert b[start..] == b[start..i];
    SplitOneLine(b[start..]);
    out := out + [b[start..]];
  }

  lemma {:induction false} SplitAt(b: string, start: nat, i: nat)
    requires start <= i < |b| && b[i] == '\n' && OneLine(b[start..i])
    ensures Split(b[start..]) == [b[start..i]] + Split(b[i + 1..])
  {
    hide Split;
    var tail := b[start..];
    assert tail[..i - start] == b[start..i] && tail[i - start + 1..] == b[i + 1..];
    SplitFirst(tail, i - start);
  }

  // ---- the printer ----

  datatype Frame = Frame(event: string, id: int, data: string)

  function Digit(n: nat): char
    requires n < 10
  {
    ['0', '1', '2', '3', '4', '5', '6', '7', '8', '9'][n]
  }

  function Decimal(n: nat): (s: string)
    ensures s != "" && (forall c <- s :: '0' <= c <= '9') && (n > 0 ==> s[0] != '0')
  {
    if n < 10 then [Digit(n)] else Decimal(n / 10) + [Digit(n % 10)]
  }

  function Value(s: string): int {
    if s == "" then 0 else 10 * Value(s[..|s| - 1]) + (s[|s| - 1] as int - '0' as int)
  }

  lemma {:induction false} DecimalReadsBack(n: nat)
    ensures Value(Decimal(n)) == n
  {
    if n < 10 {
      assert [Digit(n)][..0] == "";
    } else {
      DecimalReadsBack(n / 10);
      assert Decimal(n)[..|Decimal(n)| - 1] == Decimal(n / 10);
    }
  }

  function DataLines(lines: seq<string>): seq<string> {
    if lines == [] then [] else ["data: " + lines[0]] + DataLines(lines[1..])
  }

  function IdLines(id: int): seq<string> { if id > 0 then ["id: " + Decimal(id)] else [] }

  /** The lines of a frame, when its event name is a single one. */
  function FrameLines(f: Frame): seq<string> {
    IdLines(f.id) + ["event: " + f.event] + DataLines(Split(f.data)) + [""]
  }

  function Unlines(lines: seq<string>): string {
    if lines == [] then "" else lines[0] + "\n" + Unlines(lines[1..])
  }

  function Print(frames: seq<Frame>): string {
    if frames == [] then "" else Unlines(FrameLines(frames[0])) + Print(frames[1..])
  }

  lemma {:induction false} UnlinesConcat(a: seq<string>, b: seq<string>)
    ensures Unlines(a + b) == Unlines(a) + Unlines(b)
  {
    if a == [] {
      assert a + b == b;
    } else {
      assert (a + b)[1..] == a[1..] + b;
      UnlinesConcat(a[1..], b);
    }
  }

  /** Every line after the first starts anew. */
  function Indented(s: string): string {
    if s == "" then "" else (if s[0] == '\n' then "\n" + "data: " else [s[0]]) + Indented(s[1..])
  }

  /** The bytes of a frame on the wire. */
  function FrameText(f: Frame): string {
    (if f.id > 0 then "id: " + Decimal(f.id) + "\n" else "") + "event: " + f.event + "\n"
    + "data: " + Indented(f.data) + "\n" + "\n"
  }

  lemma {:induction false} DataText(s: string)
    ensures Unlines(DataLines(Split(s))) == "data: " + Indented(s) + "\n"
  {
    if s == "" {
      UnlinesFirst("", []);
      assert [""] + [] == [""];
      assert "data: " + "" + "\n" + "" == "data: " + "" + "\n";
    } else {
      DataText(s[1..]);
      var rest := Split(s[1..]);
      hide Unlines, DataLines;
      UnlinesFirst("", rest);
      UnlinesFirst(rest[0], rest[1..]);
      UnlinesFirst([s[0]] + rest[0], rest[1..]);
      assert [rest[0]] + rest[1..] == rest;
      NewLine("data: ", Indented(s[1..]));
      SameLine("data: ", s[0], rest[0], Unlines(DataLines(rest[1..])), Indented(s[1..]));
    }
  }

  lemma NewLine(head: string, more: string)
    ensures head + "" + "\n" + (head + more + "\n") == head + ("\n" + head + more) + "\n"
  {
  }

  lemma SameLine(head: string, c: char, line: string, more: string, text: string)
    requires head + line + "\n" + more == head + text + "\n"
    ensures head + ([c] + line) + "\n" + more == head + ([c] + text) + "\n"
  {
    assert (head + line + "\n" + more)[|head|..] == line + "\n" + more;
    assert (head + text + "\n")[|head|..] == text + "\n";
    assert head + ([c] + line) + "\n" + more == head + [c] + (line + "\n" + more);
    assert head + ([c] + text) + "\n" == head + [c] + (text + "\n");
  }

  lemma UnlinesFirst(line: string, rest: seq<string>)
    ensures Unlines(DataLines([line] + rest)) == "data: " + line + "\n" + Unlines(DataLines(rest))
  {
    assert ([line] + rest)[1..] == rest;
  }

  /** A frame as printed: the id if it is positive, the event name, the data line by line, and a blank line. */
  lemma {:induction false} FramePrinted(f: Frame)
    ensures Unlines(FrameLines(f)) == FrameText(f)
  {
    hide Unlines, DataLines, Split, Decimal, Indented;
    var head, data := IdLines(f.id) + ["event: " + f.event], DataLines(Split(f.data));
    HeadPrinted(f);
    DataText(f.data);
    UnlinesConcat(head, data);
    UnlinesConcat(head + data, [""]);
    BlankPrinted();
    FrameGlued(Unlines(head), "data: ", Indented(f.data));
  }

  lemma HeadPrinted(f: Frame)
    ensures Unlines(IdLines(f.id) + ["event: " + f.event])
         == (if f.id > 0 then "id: " + Decimal(f.id) + "\n" else "") + "event: " + f.event + "\n"
  {
    hide Unlines, Decimal;
    UnlinesConcat(IdLines(f.id), ["event: " + f.event]);
    UnlinesOne("event: " + f.event);
    if f.id > 0 {
      UnlinesOne("id: " + Decimal(f.id));
      HeadGlued("id: " + Decimal(f.id) + "\n", "event: ", f.event);
    } else {
      UnlinesNone();
      HeadGlued("", "event: ", f.event);
    }
  }

  lemma HeadGlued(id: string, name: string, event: string)
    ensures id + (name + event + "\n") == id + name + event + "\n"
  {
  }

  lemma BlankPrinted()
    ensures Unlines([""]) == "\n"
  {
    UnlinesOne("");
    assert "" + "\n" == "\n";
  }

  lemma FrameGlued(top: string, head: string, data: string)
    ensures top + (head + data + "\n") + "\n" == top + head + data + "\n" + "\n"
  {
  }

  method WriteFrame(w: string, f: Frame) returns (out: string)
    ensures out == w + Unlines(FrameLines(f)) == w + FrameText(f)
  {
    hide Unlines, DataLines, Split, Indented;
    FramePrinted(f);
    out := w;
    if f.id > 0 {
      out := out + "id: " + Decimal(f.id) + "\n";
    }
    out := out + "event: " + f.event + "\n";
    ghost var head := IdLines(f.id) + ["event: " + f.event];
    assert out == w + Unlines(head) by { HeadWritten(w, f); }
    var lines := SplitLines(f.data);
    out := WriteData(out, lines);
    UnlinesConcat(head, DataLines(lines));
    UnlinesConcat(head + DataLines(lines), [""]);
    UnlinesOne("");
    out := out + "\n";
  }

  lemma {:induction false} HeadWritten(w: string, f: Frame)
    ensures (if f.id > 0 then w + "id: " + Decimal(f.id) + "\n" else w) + "event: " + f.event + "\n"
         == w + Unlines(IdLines(f.id) + ["event: " + f.event])
  {
    hide Unlines, Decimal;
    UnlinesConcat(IdLines(f.id), ["event: " + f.event]);
    UnlinesOne("event: " + f.event);
    if f.id > 0 {
      UnlinesOne("id: " + Decimal(f.id));
    } else {
      UnlinesNone();
    }
  }

  lemma UnlinesNone()
    ensures Unlines([]) == ""
  {
  }

  method WriteData(w: string, lines: seq<string>) returns (out: string)
    ensures out == w + Unlines(DataLines(lines))
  {
    hide Unlines, DataLines;
    out := w;
    var i := 0;
    assert DataLines(lines[..0]) == [] by { DataLinesNone(lines); }
    UnlinesNone();
    while i < |lines|
      invariant 0 <= i <= |lines|
      invariant out == w + Unlines(DataLines(lines[..i]))
    {
      DataLinesMore(lines, i);
      UnlinesConcat(DataLines(lines[..i]), ["data: " + lines[i]]);
      UnlinesOne("data: " + lines[i]);
      out := out + ("data: " + lines[i] + "\n");
      i := i + 1;
    }
    assert lines[..|lines|] == lines;
  }

  lemma DataLinesNone(lines: seq<string>)
    ensures DataLines(lines[..0]) == []
  {
  }

  lemma UnlinesOne(line: string)
    ensures Unlines([line]) == line + "\n"
  {
  }

  lemma {:induction false} DataLinesMore(lines: seq<string>, i: nat)
    requires i < |lines|
    ensures DataLines(lines[..i + 1]) == DataLines(lines[..i]) + ["data: " + lines[i]]
  {
    if i > 0 {
      DataLinesMore(lines[1..], i - 1);
      assert lines[..i + 1][1..] == lines[1..][..i] && lines[..i][1..] == lines[1..][..i - 1];
    } else {
      assert lines[..1] == [lines[0]];
    }
  }

  // ---- the parser ----

  datatype Event = Event(kind: string, data: string, id: Option<string>)

  datatype Parser = Parser(eventName: Option<string>, data: string, lastId: Option<string>)

  function FirstColon(s: string): (k: nat)
    ensures k <= |s| && (forall i :: 0 <= i < k ==> s[i] != ':') && (k < |s| ==> s[k] == ':')
  {
    if s == "" || s[0] == ':' then 0 else 1 + FirstColon(s[1..])
  }

  /** A line as field and value, one space after the colon dropped. */
  function Field(line: string): (string, string) {
    var k := FirstColon(line);
    if k == |line| then (line, "")
    else
      var v := line[k + 1..];
      (line[..k], if v != "" && v[0] == ' ' then v[1..] else v)
  }

  function Append(data: string, value: string): string {
    if data == "" then value else data + "\n" + value
  }

  function Fed(p: Parser, line: string): (Parser, Option<Event>) {
    if line == "" then
      (Parser(None, "", p.lastId),
       if p.data == "" then None
       else Some(Event(if p.eventName.Some? then p.eventName.value else "message", p.data, p.lastId)))
    else if line[0] == ':' then (p, None)
    else
      var (field, value) := Field(line);
      (if field == "event" then p.(eventName := Some(value))
       else if field == "data" then p.(data := Append(p.data, value))
       else if field == "id" && '\U{FFFD}' !in value then p.(lastId := Some(value))
       else p, None)
  }

  /**
   * What each line does: a blank one ends the event, one that starts with a colon is a comment, and
   * any other is a name with a value after its first colon, less one space; other names are skipped.
   */
  lemma {:induction false} LineMeans(p: Parser, name: string, value: string)
    requires ':' !in name
    ensures Fed(p, "").0 == Parser(None, "", p.lastId)
    ensures if p.data == "" then Fed(p, "").1.None?
            else Fed(p, "").1 == Some(Event(match p.eventName case Some(n) => n case None => "message", p.data, p.lastId))
    ensures Fed(p, ":" + value) == (p, None)
    ensures name != "" ==> Fed(p, name + ": " + value) == (Taken(p, name, value), None)
    ensures name != "" && (value == "" || value[0] != ' ') ==> Fed(p, name + ":" + value) == (Taken(p, name, value), None)
    ensures name != "" ==> Fed(p, name) == (Taken(p, name, ""), None)
  {
    assert (":" + value)[0] == ':';
    if name != "" {
      hide Fed, Taken;
      FieldOf(name, value);
      if value == "" || value[0] != ' ' { TightField(name, value); }
      BareField(name);
      assert name[0] in name && (name + ": " + value)[0] == (name + ":" + value)[0] == name[0];
      FedTakes(p, name + ": " + value);
      FedTakes(p, name + ":" + value);
      FedTakes(p, name);
    }
  }

  /** The three names the parser knows. */
  function Taken(p: Parser, name: string, value: string): Parser {
    match name
    case "event" => Parser(Some(value), p.data, p.lastId)
    case "data" => Parser(p.eventName, if p.data == "" then value else p.data + "\n" + value, p.lastId)
    case "id" => Parser(p.eventName, p.data, if '\U{FFFD}' in value then p.lastId else Some(value))
    case _ => p
  }

  lemma FedTakes(p: Parser, line: string)
    requires line != "" && line[0] != ':'
    ensures Fed(p, line) == (Taken(p, Field(line).0, Field(line).1), None)
  {
    hide FirstColon, Field;
  }

  lemma {:induction false} TightField(name: string, value: string)
    requires ':' !in name && (value == "" || value[0] != ' ')
    ensures Field(name + ":" + value) == (name, value)
  {
    var line := name + ":" + value;
    var k := FirstColon(line);
    assert line[|name|] == ':';
    assert forall i :: 0 <= i < |name| ==> line[i] == name[i] && name[i] in name;
    assert line[..k] == name && line[k + 1..] == value;
  }

  lemma {:induction false} BareField(name: string)
    requires ':' !in name
    ensures Field(name) == (name, "")
  {
    assert forall i :: 0 <= i < |name| ==> name[i] in name;
  }

  class SseParser {
    var eventName: Option<string>
    var dataLines: string
    var lastId: Option<string>

    ghost function Now(): Parser
      reads this
    {
      Parser(eventName, dataLines, lastId)
    }

    constructor ()
      ensures Now() == Parser(None, "", None)
    {
      eventName, dataLines, lastId := None, "", None;
    }

    method Dispatch() returns (ev: Option<Event>)
      modifies this
      ensures (Now(), ev) == Fed(old(Now()), "")
    {
      ev := if dataLines == "" then None
            else Some(Event(if eventName.Some? then eventName.value else "message", dataLines, lastId));
      eventName, dataLines := None, "";
    }

    method Feed(line: string) returns (ev: Option<Event>)
      modifies this
      ensures (Now(), ev) == Fed(old(Now()), line)
    {
      ev := None;
      if line == "" {
        ev := Dispatch();
        return;
      }
      if line[0] == ':' {
        return;
      }
      var (field, value) := Field(line);
      if field == "event" {
        eventName := Some(value);
      } else if field == "data" {
        assert "" + value == value;
        if dataLines != "" { dataLines := dataLines + "\n"; }
        dataLines := dataLines + value;
      } else if field == "id" {
        if '\U{FFFD}' !in value { lastId := Some(value); }
      }
    }
  }

  // ---- reading ----

  /** The line reader drops one carriage return before the line feed. */
  function Chomp(line: string): string {
    if line != "" && line[|line| - 1] == '\r' then line[..|line| - 1] else line
  }

  function Chomped(lines: seq<string>): (r: seq<string>)
    ensures |r| == |lines| && forall i :: 0 <= i < |r| ==> r[i] == Chomp(lines[i])
  {
    if lines == [] then [] else [Chomp(lines[0])] + Chomped(lines[1..])
  }

  /** The lines of a connection that ends; what follows the last line feed comes as it is. */
  function ReadLines(text: string): seq<string> {
    var pieces := Split(text);
    var n := |pieces| - 1;
    Chomped(pieces[..n]) + if pieces[n] == "" then [] else [pieces[n]]
  }

  function FeedAll(p: Parser, lines: seq<string>): (Parser, seq<Event>)
    decreases |lines|
  {
    if lines == [] then (p, [])
    else
      var (p1, ev) := Fed(p, lines[0]);
      var (p2, evs) := FeedAll(p1, lines[1..]);
      (p2, if ev.Some? then [ev.value] + evs else evs)
  }

  const FRESH: Parser := Parser(None, "", None)

  function Read(text: string): seq<Event> { FeedAll(FRESH, ReadLines(text)).1 }

  method ReadStream(text: string) returns (events: seq<Event>)
    ensures events == Read(text)
  {
    var parser := new SseParser();
    var lines := ReadLines(text);
    events := [];
    var i := 0;
    assert lines[0..] == lines;
    while i < |lines|
      invariant 0 <= i <= |lines|
      invariant Read(text) == events + FeedAll(parser.Now(), lines[i..]).1
    {
      assert lines[i..][0] == lines[i] && lines[i..][1..] == lines[i + 1..];
      var ev := parser.Feed(lines[i]);
      if ev.Some? { events := events + [ev.value]; }
      i := i + 1;
    }
  }

  lemma {:induction false} FeedAllConcat(p: Parser, a: seq<string>, b: seq<string>)
    ensures var (p1, evs1) := FeedAll(p, a);
      var (p2, evs2) := FeedAll(p1, b);
      FeedAll(p, a + b) == (p2, evs1 + evs2)
    decreases |a|
  {
    hide Fed;
    if a == [] {
      assert a + b == b;
      assert [] + FeedAll(p, b).1 == FeedAll(p, b).1;
    } else {
      assert (a + b)[0] == a[0] && (a + b)[1..] == a[1..] + b;
      var (p1, ev) := Fed(p, a[0]);
      FeedAllConcat(p1, a[1..], b);
      var (q, evs) := FeedAll(p1, a[1..]);
      assert [if ev.Some? then ev.value else Event("", "", None)] + (evs + FeedAll(q, b).1)
          == [if ev.Some? then ev.value else Event("", "", None)] + evs + FeedAll(q, b).1;
    }
  }

  // ---- the lines a printed text is read as ----

  /** An event name of several lines would print as several lines. */
  function WireLines(f: Frame): seq<string> {
    IdLines(f.id) + Split("event: " + f.event) + DataLines(Split(f.data)) + [""]
  }

  function AllLines(frames: seq<Frame>): seq<string> {
    if frames == [] then [] else WireLines(frames[0]) + AllLines(frames[1..])
  }

  lemma {:induction false} UnlinesJoin(lines: seq<string>)
    requires lines != []
    ensures Unlines(lines) == Join(lines) + "\n"
  {
    if |lines| > 1 {
      UnlinesJoin(lines[1..]);
    }
  }

  lemma {:induction false} WireLinesPrint(f: Frame)
    ensures Unlines(WireLines(f)) == Unlines(FrameLines(f))
  {
    hide Unlines, Split, DataLines, Join;
    var (ids, name, data) := (IdLines(f.id), "event: " + f.event, DataLines(Split(f.data)));
    JoinSplit(name);
    UnlinesJoin(Split(name));
    UnlinesOne(name);
    UnlinesConcat(ids, Split(name));
    UnlinesConcat(ids, [name]);
    UnlinesConcat(ids + Split(name), data);
    UnlinesConcat(ids + [name], data);
    UnlinesConcat(ids + Split(name) + data, [""]);
    UnlinesConcat(ids + [name] + data, [""]);
  }

  lemma {:induction false} AllLinesPrint(frames: seq<Frame>)
    ensures Unlines(AllLines(frames)) == Print(frames)
  {
    if frames != [] {
      hide Unlines, WireLines, FrameLines;
      WireLinesPrint(frames[0]);
      AllLinesPrint(frames[1..]);
      UnlinesConcat(WireLines(frames[0]), AllLines(frames[1..]));
    }
  }

  ghost predicate AllOneLine(lines: seq<string>) { forall i :: 0 <= i < |lines| ==> OneLine(lines[i]) }

  lemma {:induction false} SplitUnlines(lines: seq<string>)
    requires AllOneLine(lines)
    ensures Split(Unlines(lines)) == lines + [""]
  {
    if lines != [] {
      var line, rest := lines[0], Unlines(lines[1..]);
      var text := line + "\n" + rest;
      assert text[..|line|] == line && text[|line| + 1..] == rest;
      SplitFirst(text, |line|);
      SplitUnlines(lines[1..]);
      assert [line] + (lines[1..] + [""]) == lines + [""];
    }
  }

  lemma {:induction false} DataLinesOneLine(lines: seq<string>)
    requires AllOneLine(lines)
    ensures AllOneLine(DataLines(lines)) && |DataLines(lines)| == |lines|
    ensures forall i :: 0 <= i < |lines| ==> DataLines(lines)[i] == "data: " + lines[i]
  {
    if lines != [] {
      DataLinesOneLine(lines[1..]);
      assert OneLine("data: " + lines[0]);
    }
  }

  lemma {:induction false} AllLinesOneLine(frames: seq<Frame>)
    ensures AllOneLine(AllLines(frames))
  {
    if frames != [] {
      hide Split;
      AllLinesOneLine(frames[1..]);
      DataLinesOneLine(Split(frames[0].data));
      var id := frames[0].id;
      if id > 0 {
        assert OneLine("id: " + Decimal(id)) by {
          assert forall c <- Decimal(id) :: c != '\n';
        }
      }
      assert AllOneLine(IdLines(id));
      assert AllOneLine(WireLines(frames[0]));
    }
  }

  /** What the app reads of a printed text, line by line. */
  lemma {:induction false} PrintedLines(frames: seq<Frame>)
    ensures ReadLines(Print(frames)) == Chomped(AllLines(frames))
  {
    AllLinesPrint(frames);
    AllLinesOneLine(frames);
    SplitUnlines(AllLines(frames));
    assert (AllLines(frames) + [""])[..|AllLines(frames)|] == AllLines(frames);
  }

  // ---- one frame ----

  /** The data collected from `lines` on top of `data`. */
  function Collected(data: string, lines: seq<string>): string
    decreases |lines|
  {
    if lines == [] then data else Collected(Append(data, lines[0]), lines[1..])
  }

  lemma {:induction false} FieldOf(name: string, value: string)
    requires ':' !in name
    ensures Field(name + ": " + value) == (name, value)
  {
    var line := name + ": " + value;
    var k := FirstColon(line);
    assert line[|name|] == ':';
    assert forall i :: 0 <= i < |name| ==> line[i] == name[i] && name[i] in name;
    assert line[..k] == name && line[k + 1..] == " " + value;
  }

  lemma {:induction false} FedField(p: Parser, name: string, value: string)
    requires name in {"id", "event", "data"}
    ensures Fed(p, name + ": " + value)
         == (if name == "event" then p.(eventName := Some(value))
             else if name == "data" then p.(data := Append(p.data, value))
             else if '\U{FFFD}' !in value then p.(lastId := Some(value)) else p, None)
  {
    FieldOf(name, value);
    assert (name + ": " + value)[0] == name[0];
  }

  lemma {:induction false} ChompField(name: string, value: string)
    ensures Chomp(name + ": " + value) == name + ": " + Chomp(value)
  {
    var line := name + ": " + value;
    if value != "" {
      assert line[|line| - 1] == value[|value| - 1];
      assert line[..|line| - 1] == name + ": " + value[..|value| - 1];
    } else {
      assert line[|line| - 1] == ' ';
    }
  }

  lemma {:induction false} FeedData(p: Parser, lines: seq<string>)
    ensures FeedAll(p, Chomped(DataLines(lines))) == (p.(data := Collected(p.data, Chomped(lines))), [])
    decreases |lines|
  {
    if lines != [] {
      hide Append, Fed;
      assert "data: " + lines[0] == "data" + ": " + lines[0];
      ChompField("data", lines[0]);
      FedField(p, "data", Chomp(lines[0]));
      FeedData(p.(data := Append(p.data, Chomp(lines[0]))), lines[1..]);
    }
  }

  /** The id a frame leaves behind for itself and those after it. */
  function IdAfter(lastId: Option<string>, f: Frame): Option<string> {
    if f.id > 0 then Some(Decimal(f.id)) else lastId
  }

  lemma {:induction false} FeedHead(p: Parser, f: Frame)
    requires OneLine(f.event)
    ensures FeedAll(p, Chomped(IdLines(f.id) + Split("event: " + f.event)))
         == (p.(lastId := IdAfter(p.lastId, f), eventName := Some(Chomp(f.event))), [])
  {
    hide Fed, Split;
    SplitOneLine("event: " + f.event);
    assert "event: " + f.event == "event" + ": " + f.event;
    ChompField("event", f.event);
    FedField(p.(lastId := IdAfter(p.lastId, f)), "event", Chomp(f.event));
    FeedOne(p.(lastId := IdAfter(p.lastId, f)), "event" + ": " + Chomp(f.event));
    var name := Chomped(["event: " + f.event]);
    assert name == ["event" + ": " + Chomp(f.event)];
    if f.id > 0 {
      var id := Decimal(f.id);
      assert "id: " + id == "id" + ": " + id;
      assert Chomp(id) == id by { assert id[|id| - 1] in id; }
      ChompField("id", id);
      FedField(p, "id", id);
      FeedOne(p, "id" + ": " + id);
      FeedAllConcat(p, ["id" + ": " + id], name);
      assert Chomped(["id: " + id] + ["event: " + f.event]) == ["id" + ": " + id] + name;
    } else {
      assert [] + ["event: " + f.event] == ["event: " + f.event];
    }
  }

  lemma FeedOne(p: Parser, line: string)
    requires Fed(p, line).1.None?
    ensures FeedAll(p, [line]) == (Fed(p, line).0, [])
  {
    hide Fed;
    assert FeedAll(Fed(p, line).0, []) == (Fed(p, line).0, []);
  }

  lemma FeedBlank(p: Parser)
    ensures FeedAll(p, [""]) == (Fed(p, "").0, if Fed(p, "").1.Some? then [Fed(p, "").1.value] else [])
  {
    var (p1, ev) := Fed(p, "");
    assert [""][1..] == [] && FeedAll(p1, []) == (p1, []);
    assert ev.Some? ==> [ev.value] + [] == [ev.value];
  }

  lemma {:induction false} ChompedConcat(a: seq<string>, b: seq<string>)
    ensures Chomped(a + b) == Chomped(a) + Chomped(b)
  {
  }

  /** A frame with a one-line event name gives at most one event. */
  lemma {:induction false} FeedFrame(p: Parser, f: Frame)
    requires OneLine(f.event) && p.data == ""
    ensures var data := Collected("", Chomped(Split(f.data)));
      FeedAll(p, Chomped(WireLines(f)))
      == (Parser(None, "", IdAfter(p.lastId, f)),
          if data == "" then [] else [Event(Chomp(f.event), data, IdAfter(p.lastId, f))])
  {
    hide Split, Collected, Chomp, IdLines;
    var head, data := IdLines(f.id) + Split("event: " + f.event), DataLines(Split(f.data));
    FeedHead(p, f);
    var p1 := p.(lastId := IdAfter(p.lastId, f), eventName := Some(Chomp(f.event)));
    FeedData(p1, Split(f.data));
    var p2 := p1.(data := Collected("", Chomped(Split(f.data))));
    FeedBlank(p2);
    ChompedConcat(head, data);
    ChompedConcat(head + data, [""]);
    assert Chomped([""]) == [""] by { BlankKept(); }
    FeedAllConcat(p, Chomped(head), Chomped(data));
    FeedAllConcat(p, Chomped(head) + Chomped(data), [""]);
    assert forall evs: seq<Event> :: [] + evs == evs;
  }

  lemma BlankKept()
    ensures Chomped([""]) == [""]
  {
  }

  // ---- the data of a frame ----

  predicate NoTrailingReturn(line: string) { line == "" || line[|line| - 1] != '\r' }

  /** Data that reads back: not empty, no leading line feed, no line ending in a carriage return. */
  ghost predicate Carried(data: string) {
    && data != "" && data[0] != '\n'
    && forall i :: 0 <= i < |Split(data)| ==> NoTrailingReturn(Split(data)[i])
  }

  lemma {:induction false} CollectedOnto(data: string, lines: seq<string>)
    requires data != "" && lines != []
    ensures Collected(data, lines) == data + "\n" + Join(lines)
    decreases |lines|
  {
    var data1 := Append(data, lines[0]);
    if |lines| == 1 {
      assert Collected(data1, lines[1..]) == data1;
    } else {
      CollectedOnto(data1, lines[1..]);
      assert data + "\n" + lines[0] + "\n" + Join(lines[1..]) == data + "\n" + (lines[0] + "\n" + Join(lines[1..]));
    }
  }

  /** From nothing, leading blank lines are lost; without them the lines are joined. */
  lemma {:induction false} CollectedFresh(lines: seq<string>)
    requires lines != []
    ensures lines[0] != "" || |lines| == 1 ==> Collected("", lines) == Join(lines)
    ensures lines[0] == "" && |lines| > 1 ==> |Collected("", lines)| < |Join(lines)|
    ensures |Collected("", lines)| <= |Join(lines)|
    decreases |lines|
  {
    if |lines| == 1 {
      assert Collected(lines[0], lines[1..]) == lines[0];
    } else if lines[0] == "" {
      CollectedFresh(lines[1..]);
    } else {
      CollectedOnto(lines[0], lines[1..]);
    }
  }

  lemma {:induction false} ChompedJoin(lines: seq<string>)
    requires lines != []
    ensures |Join(Chomped(lines))| <= |Join(lines)|
    ensures (forall i :: 0 <= i < |lines| ==> NoTrailingReturn(lines[i])) ==> Chomped(lines) == lines
    ensures |Join(Chomped(lines))| == |Join(lines)| ==> forall i :: 0 <= i < |lines| ==> NoTrailingReturn(lines[i])
    decreases |lines|
  {
    if |lines| > 1 {
      ChompedJoin(lines[1..]);
      assert forall i :: 1 <= i < |lines| ==> lines[i] == lines[1..][i - 1];
    }
  }

  /** The data of a frame arrives as it was sent, and as an event at all, exactly when it is carried. */
  lemma {:induction false} DataReadsBackExactly(data: string)
    ensures var read := Collected("", Chomped(Split(data)));
      (read != "" && read == data) <==> Carried(data)
  {
    hide Split, Collected;
    var lines := Split(data);
    JoinSplit(data);
    ChompedJoin(lines);
    CollectedFresh(Chomped(lines));
    if data != "" { SplitHead(data); }
  }

  lemma SplitHead(data: string)
    requires data != ""
    ensures data[0] == '\n' <==> Split(data)[0] == "" && |Split(data)| > 1
  {
  }

  // ---- a whole stream ----

  ghost predicate FrameCarried(f: Frame) {
    OneLine(f.event) && NoTrailingReturn(f.event) && Carried(f.data)
  }

  /** The events a stream of frames should give, each with the latest positive id so far. */
  function Expected(lastId: Option<string>, frames: seq<Frame>): (events: seq<Event>)
    ensures |events| == |frames| && forall i :: 0 <= i < |frames| ==> events[i].kind == frames[i].event
    decreases |frames|
  {
    if frames == [] then [] else
      var id := IdAfter(lastId, frames[0]);
      [Event(frames[0].event, frames[0].data, id)] + Expected(id, frames[1..])
  }

  function EventsOf(p: Parser, frames: seq<Frame>): seq<Event> { FeedAll(p, Chomped(AllLines(frames))).1 }

  lemma {:induction false} EventsOneByOne(p: Parser, frames: seq<Frame>)
    requires frames != [] && OneLine(frames[0].event) && p.data == ""
    ensures var f := frames[0];
      var data := Collected("", Chomped(Split(f.data)));
      EventsOf(p, frames)
      == (if data == "" then [] else [Event(Chomp(f.event), data, IdAfter(p.lastId, f))])
         + EventsOf(Parser(None, "", IdAfter(p.lastId, f)), frames[1..])
  {
    hide FeedAll, WireLines, Collected, Chomp, Chomped;
    FeedFrame(p, frames[0]);
    ChompedConcat(WireLines(frames[0]), AllLines(frames[1..]));
    FeedAllConcat(p, Chomped(WireLines(frames[0])), Chomped(AllLines(frames[1..])));
  }

  /** Frames with one-line names: never more events than frames, and all as expected only if carried. */
  lemma {:induction false} OneLineEvents(p: Parser, frames: seq<Frame>)
    requires p.data == "" && forall f <- frames :: OneLine(f.event)
    ensures |EventsOf(p, frames)| <= |frames|
    ensures EventsOf(p, frames) == Expected(p.lastId, frames) <==> forall i :: 0 <= i < |frames| ==> FrameCarried(frames[i])
    decreases |frames|
  {
    if frames != [] {
      hide FeedAll, Collected, Chomped, Split, Carried, EventsOf;
      var f := frames[0];
      assert f in frames;
      var id := IdAfter(p.lastId, f);
      var (p1, data) := (Parser(None, "", id), Collected("", Chomped(Split(f.data))));
      EventsOneByOne(p, frames);
      OneLineEvents(p1, frames[1..]);
      DataReadsBackExactly(f.data);
      var (first, rest) := (if data == "" then [] else [Event(Chomp(f.event), data, id)], EventsOf(p1, frames[1..]));
      assert EventsOf(p, frames) == first + rest;
      HeadAndTail(first, rest, Event(f.event, f.data, id), Expected(id, frames[1..]));
      ChompExactly(f.event);
      assert (forall i :: 0 <= i < |frames| ==> FrameCarried(frames[i]))
        <==> FrameCarried(f) && forall i :: 0 <= i < |frames[1..]| ==> FrameCarried(frames[1..][i]) by {
        hide FrameCarried;
        assert forall i :: 1 <= i < |frames| ==> frames[i] == frames[1..][i - 1];
      }
    } else {
      NoEvents(p);
    }
  }

  lemma NoEvents(p: Parser)
    ensures EventsOf(p, []) == []
  {
  }

  lemma ChompExactly(line: string)
    ensures Chomp(line) == line <==> NoTrailingReturn(line)
  {
    assert |Chomp(line)| == |line| <==> NoTrailingReturn(line);
  }

  lemma HeadAndTail(first: seq<Event>, rest: seq<Event>, e: Event, more: seq<Event>)
    requires |first| <= 1 && |rest| <= |more|
    ensures first + rest == [e] + more <==> first == [e] && rest == more
  {
    if first + rest == [e] + more {
      assert |first + rest| == 1 + |more|;
      assert (first + rest)[0] == e && (first + rest)[1..] == more;
    }
  }

  ghost predicate OneLineKinds(events: seq<Event>) { forall i :: 0 <= i < |events| ==> OneLine(events[i].kind) }

  /** No event read ever has a name of several lines. */
  lemma {:induction false} KindsOneLine(p: Parser, lines: seq<string>)
    requires AllOneLine(lines) && (p.eventName.Some? ==> OneLine(p.eventName.value))
    ensures OneLineKinds(FeedAll(p, lines).1)
    decreases |lines|
  {
    if lines != [] {
      FedOneLine(p, lines[0]);
      hide Fed, OneLine;
      var (p1, ev) := Fed(p, lines[0]);
      AllOneLineTail(lines);
      KindsOneLine(p1, lines[1..]);
      var events := FeedAll(p1, lines[1..]).1;
      assert FeedAll(p, lines).1 == if ev.Some? then [ev.value] + events else events;
    }
  }

  lemma AllOneLineTail(lines: seq<string>)
    requires AllOneLine(lines) && lines != []
    ensures AllOneLine(lines[1..]) && OneLine(lines[0])
  {
  }

  lemma {:induction false} FedOneLine(p: Parser, line: string)
    requires OneLine(line) && (p.eventName.Some? ==> OneLine(p.eventName.value))
    ensures var (p', ev) := Fed(p, line);
      && (p'.eventName.Some? ==> OneLine(p'.eventName.value)) && (ev.Some? ==> OneLine(ev.value.kind))
  {
    assert OneLine(Field(line).1);
    assert OneLine("message");
  }

  lemma {:induction false} ChompedOneLine(lines: seq<string>)
    requires AllOneLine(lines)
    ensures AllOneLine(Chomped(lines))
  {
    forall i | 0 <= i < |lines| ensures OneLine(Chomped(lines)[i]) {
      assert OneLine(lines[i]);
    }
  }

  /** A printed stream reads back, event for event, exactly when every frame is carried. */
  lemma {:induction false} StreamReadsBackExactly(frames: seq<Frame>)
    ensures Read(Print(frames)) == Expected(None, frames) <==> forall i :: 0 <= i < |frames| ==> FrameCarried(frames[i])
  {
    hide FeedAll, Chomped, AllLines, Print, ReadLines, Expected, Carried, OneLine;
    PrintedLines(frames);
    if forall f <- frames :: OneLine(f.event) {
      OneLineEvents(FRESH, frames);
    } else {
      var f :| f in frames && !OneLine(f.event);
      var i :| 0 <= i < |frames| && frames[i] == f;
      AllLinesOneLine(frames);
      ChompedOneLine(AllLines(frames));
      KindsOneLine(FRESH, Chomped(AllLines(frames)));
      assert OneLineKinds(Read(Print(frames)));
      assert !OneLine(Expected(None, frames)[i].kind);
      assert !FrameCarried(frames[i]);
    }
  }
}
