/** The draft stream: the events the server prints, and the client that reads
    them back from network chunks cut anywhere. */
module Sse {
  import opened Text

  /** A JSON value: the `delta` member the client looks at, if there is one, and everything
      else. JSON null stands apart, for it has no members to look at. */
  datatype Payload = Payload(delta: Option<string>, other: string) | Null

  datatype Event = Event(name: string, data: Payload)

  /** JSON text has no line break and begins with a visible character, and parsing
      gives back what was printed. */
  ghost predicate Json(json: Payload -> string, parse: string -> Option<Payload>, space: char -> bool) {
    && space(' ')
    && forall p :: '\n' !in json(p) && json(p) != "" && !space(json(p)[0]) && parse(json(p)) == Some(p)
  }

  // ---------- server ----------

  function Body(e: Event, json: Payload -> string): string { "event: " + e.name + "\ndata: " + json(e.data) }

  function Print(e: Event, json: Payload -> string): string { Body(e, json) + "\n\n" }

  /** The wire format. */
  lemma PrintText(name: string, data: Payload, json: Payload -> string)
    ensures Print(Event(name, data), json) == "event: " + name + "\ndata: " + json(data) + "\n\n"
  {
  }

  function Concat(chunks: seq<string>): string {
    if chunks == [] then "" else chunks[0] + Concat(chunks[1..])
  }

  function Printed(events: seq<Event>, json: Payload -> string): (r: seq<string>)
    ensures |r| == |events|
  {
    seq(|events|, k requires 0 <= k < |events| => Print(events[k], json))
  }

  /** The reply the stream reports, with the objects that come with it. */
  datatype Reply =
    | Abstained(retrieval: string, reason: string)
    | Grounded(retrieval: string, body: string, claim: string, verification: string, receipt: string)

  function Plain(other: string): Payload { Payload(None, other) }

  function TokenEvents(tokens: seq<string>): (r: seq<Event>)
    ensures |r| == |tokens|
  {
    seq(|tokens|, k requires 0 <= k < |tokens| => Event("token", Payload(Some(tokens[k] + " "), "")))
  }

  function ReplyEvents(r: Reply): seq<Event> {
    match r
    case Abstained(retrieval, reason) =>
      [Event("retrieval", Plain(retrieval)), Event("abstain", Plain(reason))]
    case Grounded(retrieval, body, claim, verification, receipt) =>
      [Event("retrieval", Plain(retrieval))] + TokenEvents(SplitAt(' ', body))
      + [Event("claim", Plain(claim)), Event("verification", Plain(verification)), Event("done", Plain(receipt))]
  }

  /** The generator behind the streaming response, yielding into `out`. */
  method Stream(r: Reply, json: Payload -> string) returns (out: seq<string>)
    ensures out == Printed(ReplyEvents(r), json)
    ensures r.Abstained? ==>
      && |out| == 2 && out[0] == Print(Event("retrieval", Payload(None, r.retrieval)), json)
      && out[1] == Print(Event("abstain", Payload(None, r.reason)), json)
    ensures r.Grounded? ==>
      var tokens := SplitAt(' ', r.body);
      && |out| == |tokens| + 4
      && out[0] == Print(Event("retrieval", Payload(None, r.retrieval)), json)
      && (forall k | 0 <= k < |tokens| ::
            out[k + 1] == Print(Event("token", Payload(Some(tokens[k] + " "), "")), json))
      && out[|tokens| + 1] == Print(Event("claim", Payload(None, r.claim)), json)
      && out[|tokens| + 2] == Print(Event("verification", Payload(None, r.verification)), json)
      && out[|tokens| + 3] == Print(Event("done", Payload(None, r.receipt)), json)
  {
    hide Print, SplitAt;
    match r
    case Abstained(retrieval, reason) =>
      out := [Print(Event("retrieval", Plain(retrieval)), json)];
      out := out + [Print(Event("abstain", Plain(reason)), json)];
    case Grounded(retrieval, body, claim, verification, receipt) =>
      out := [Print(Event("retrieval", Plain(retrieval)), json)];
      var tokens := SplitAt(' ', body);
      for i := 0 to |tokens|
        invariant out == [Print(Event("retrieval", Plain(retrieval)), json)] + Printed(TokenEvents(tokens[..i]), json)
      {
        out := out + [Print(Event("token", Payload(Some(tokens[i] + " "), "")), json)];
      }
      assert tokens[..|tokens|] == tokens;
      out := out + [Print(Event("claim", Plain(claim)), json)];
      out := out + [Print(Event("verification", Plain(verification)), json)];
      out := out + [Print(Event("done", Plain(receipt)), json)];
  }

  // ---------- client: one block ----------

  predicate StartsWith(line: string, word: string) { word <= line }

  datatype Block = Block(name: string, data: seq<string>)

  function ReadLine(space: char -> bool, line: string, b: Block): Block {
    var named := if StartsWith(line, "event:") then b.(name := Trim(space, line[6..])) else b;
    if StartsWith(line, "data:") then named.(data := named.data + [TrimLeft(space, line[5..])]) else named
  }

  function ReadLines(space: char -> bool, lines: seq<string>, b: Block): Block {
    if lines == [] then b else ReadLines(space, lines[1..], ReadLine(space, lines[0], b))
  }

  /** What a block parses to: nothing without data lines, an error without JSON. */
  datatype Parsed = NoEvent | Failure | Parsed(event: Event)

  function ParseBlock(space: char -> bool, parse: string -> Option<Payload>, block: string): Parsed {
    var b := ReadLines(space, SplitAt('\n', block), Block("message", []));
    if b.data == [] then NoEvent
    else match parse(Join('\n', b.data))
      case None => Failure
      case Some(p) => Parsed(Event(b.name, p))
  }

  method ParseSseBlock(space: char -> bool, parse: string -> Option<Payload>, block: string) returns (r: Parsed)
    ensures r == ParseBlock(space, parse, block)
  {
    var name := "message";
    var dataLines: seq<string> := [];
    var lines := SplitAt('\n', block);
    for i := 0 to |lines|
      invariant ReadLines(space, lines[i..], Block(name, dataLines)) == ReadLines(space, lines, Block("message", []))
    {
      var line := lines[i];
      assert lines[i..][1..] == lines[i + 1..];
      if StartsWith(line, "event:") { name := Trim(space, line[6..]); }
      if StartsWith(line, "data:") { dataLines := dataLines + [TrimLeft(space, line[5..])]; }
    }
    if dataLines == [] { return NoEvent; }
    match parse(Join('\n', dataLines))
    case None => r := Failure;
    case Some(p) => r := Parsed(Event(name, p));
  }

  // ---------- client: splitting at blank lines ----------

  /** buffer.split("\n\n"): leftmost, non-overlapping. */
  function Blocks(s: string): (r: seq<string>)
    ensures r != []
  {
    if |s| < 2 then [s]
    else if s[0] == '\n' && s[1] == '\n' then [""] + Blocks(s[2..])
    else var rest := Blocks(s[1..]); [[s[0]] + rest[0]] + rest[1..]
  }

  function Complete(s: string): seq<string> { var r := Blocks(s); r[..|r| - 1] }

  function Leftover(s: string): string { var r := Blocks(s); r[|r| - 1] }

  /** Splitting what is left over together with the next chunk continues the split. */
  lemma {:induction false} BlocksContinue(a: string, b: string)
    ensures Complete(a + b) == Complete(a) + Complete(Leftover(a) + b)
    ensures Leftover(a + b) == Leftover(Leftover(a) + b)
    decreases |a|
  {
    hide *;
    if |a| < 2 {
      SmallBlock(a);
    } else if a[0] == '\n' && a[1] == '\n' {
      assert (a + b)[2..] == a[2..] + b;
      BlocksContinue(a[2..], b);
      EmptyBlock(a);
      EmptyBlock(a + b);
    } else {
      assert (a + b)[1..] == a[1..] + b;
      BlocksContinue(a[1..], b);
      LongerBlock(a, b);
    }
  }

  lemma SmallBlock(s: string)
    requires |s| < 2
    ensures Complete(s) == [] && Leftover(s) == s
  {
  }

  lemma EmptyBlock(s: string)
    requires |s| >= 2 && s[0] == s[1] == '\n'
    ensures Complete(s) == [""] + Complete(s[2..]) && Leftover(s) == Leftover(s[2..])
  {
  }

  /** The first character belongs to the first block. */
  lemma LongerBlock(a: string, b: string)
    requires |a| >= 2 && !(a[0] == '\n' && a[1] == '\n')
    requires Complete(a[1..] + b) == Complete(a[1..]) + Complete(Leftover(a[1..]) + b)
    requires Leftover(a[1..] + b) == Leftover(Leftover(a[1..]) + b)
    ensures Complete(a + b) == Complete(a) + Complete(Leftover(a) + b)
    ensures Leftover(a + b) == Leftover(Leftover(a) + b)
  {
    hide Blocks;
    var x := a[1..];
    assert (a + b)[1..] == x + b;
    BlocksStep(a);
    BlocksStep(a + b);
    if |Blocks(x)| == 1 {
      // no block is complete yet: all of a is left over
      OnlyBlock(x);
      assert [a[0]] + x == a;
      assert Complete(a) == [] && Leftover(a) == a;
    } else {
      hide PutInFront;
      FrontContinues(a[0], Blocks(x), Blocks(x + b), Complete(Leftover(x) + b));
    }
  }

  lemma BlocksStep(s: string)
    requires |s| >= 2
    ensures Blocks(s) ==
      if s[0] == '\n' && s[1] == '\n' then [""] + Blocks(s[2..]) else PutInFront(s[0], Blocks(s[1..]))
  {
  }

  function PutInFront(c: char, r: seq<string>): seq<string>
    requires r != []
  {
    [[c] + r[0]] + r[1..]
  }

  lemma FrontContinues(c: char, r: seq<string>, u: seq<string>, more: seq<string>)
    requires |r| > 1 && u != [] && u[..|u| - 1] == r[..|r| - 1] + more
    ensures var p, q := PutInFront(c, r), PutInFront(c, u);
      && q[..|q| - 1] == p[..|p| - 1] + more
      && q[|q| - 1] == u[|u| - 1] && p[|p| - 1] == r[|r| - 1]
  {
    var init := u[..|u| - 1];
    assert |init| > 0 && u[0] == init[0] == r[0];
  }

  lemma {:induction false} OnlyBlock(s: string)
    requires |Blocks(s)| == 1
    ensures Blocks(s) == [s]
  {
    if |s| >= 2 {
      OnlyBlock(s[1..]);
      assert s == [s[0]] + s[1..];
    }
  }

  // ---------- client: the draft studio ----------

  datatype Status = Idle | Loading | Done | Refused | Error

  datatype View = View(draft: string, retrieval: Option<Payload>, verification: Option<Payload>, status: Status)

  const EMPTY_VIEW := View("", None, None, Loading)

  /** Looking for the delta of null throws. */
  predicate Throws(e: Event) { e.name == "token" && e.data.Null? }

  function Kept(p: Payload): Option<Payload> { if p.Null? then None else Some(p) }

  function Dispatch(v: View, e: Event): View {
    if e.name == "retrieval" then v.(retrieval := Kept(e.data))
    else if e.name == "token" then
      if e.data.Payload? && e.data.delta.Some? && e.data.delta.value != ""
      then v.(draft := v.draft + e.data.delta.value) else v
    else if e.name == "verification" then v.(verification := Kept(e.data))
    else if e.name == "abstain" then v.(status := Refused)
    else if e.name == "done" then v.(status := Done)
    else v
  }

  /** The view after these blocks, and whether all of them could be handled. */
  function DispatchAll(space: char -> bool, parse: string -> Option<Payload>,
                       blocks: seq<string>, v: View): (View, bool) {
    if blocks == [] then (v, true)
    else match ParseBlock(space, parse, blocks[0])
      case Failure => (v, false)
      case NoEvent => DispatchAll(space, parse, blocks[1..], v)
      case Parsed(e) =>
        if Throws(e) then (Dispatch(v, e), false) else DispatchAll(space, parse, blocks[1..], Dispatch(v, e))
  }

  lemma {:induction false} DispatchAppend(space: char -> bool, parse: string -> Option<Payload>, a: seq<string>,
      b: seq<string>, v: View)
    ensures var (u, ok) := DispatchAll(space, parse, a, v);
      DispatchAll(space, parse, a + b, v) == if ok then DispatchAll(space, parse, b, u) else (u, false)
  {
    if a == [] {
      assert a + b == b;
    } else {
      assert (a + b)[1..] == a[1..] + b;
      match ParseBlock(space, parse, a[0])
      case Failure =>
      case NoEvent => DispatchAppend(space, parse, a[1..], b, v);
      case Parsed(e) => if !Throws(e) { DispatchAppend(space, parse, a[1..], b, Dispatch(v, e)); }
    }
  }

  /** What the user sees in the end: the whole text decides, not how it was cut. */
  function Result(space: char -> bool, parse: string -> Option<Payload>, text: string): View {
    var (v, ok) := DispatchAll(space, parse, Complete(text), EMPTY_VIEW);
    if ok then v else v.(status := Error)
  }

  lemma ConcatNext(chunks: seq<string>, i: nat)
    requires i < |chunks|
    ensures Concat(chunks[..i + 1]) == Concat(chunks[..i]) + chunks[i]
  {
    assert chunks[..i + 1] == chunks[..i] + [chunks[i]];
    ConcatAppend(chunks[..i], [chunks[i]]);
    assert Concat([chunks[i]]) == chunks[i] + Concat([]);
  }

  lemma {:induction false} ConcatAppend(a: seq<string>, b: seq<string>)
    ensures Concat(a + b) == Concat(a) + Concat(b)
  {
    if a == [] {
      assert a + b == b;
    } else {
      assert (a + b)[1..] == a[1..] + b;
      ConcatAppend(a[1..], b);
    }
  }

  /** What the reads yield; a broken response ends in a read that fails. */
  datatype Response = Response(chunks: seq<string>, broken: bool)

  class DraftStudio {
    var draft: string
    var retrieval: Option<Payload>
    var verification: Option<Payload>
    var status: Status

    function Shown(): View
      reads this
    {
      View(draft, retrieval, verification, status)
    }

    constructor ()
      ensures Shown() == View("", None, None, Idle)
    {
      draft, retrieval, verification, status := "", None, None, Idle;
    }

    /** One event of the inner loop; fails when it throws. */
    method Handle(e: Event) returns (ok: bool)
      modifies this
      ensures ok == !Throws(e) && Shown() == Dispatch(old(Shown()), e)
      ensures retrieval ==
        (if e.name != "retrieval" then old(retrieval) else if e.data == Null then None else Some(e.data))
      ensures verification ==
        (if e.name != "verification" then old(verification) else if e.data == Null then None else Some(e.data))
    {
      if e.name == "retrieval" { retrieval := Kept(e.data); }
      if e.name == "token" {
        if e.data.Null? { return false; }
        if e.data.delta.Some? && e.data.delta.value != "" { draft := draft + e.data.delta.value; }
      }
      if e.name == "verification" { verification := Kept(e.data); }
      if e.name == "abstain" { status := Refused; }
      if e.name == "done" { status := Done; }
      ok := true;
    }

    /** The blocks of one read; stops at the first that does not parse or throws. */
    method HandleAll(space: char -> bool, parse: string -> Option<Payload>, blocks: seq<string>) returns (ok: bool)
      modifies this
      ensures (Shown(), ok) == DispatchAll(space, parse, blocks, old(Shown()))
    {
      hide ParseBlock, Dispatch, Throws;
      for i := 0 to |blocks|
        invariant DispatchAll(space, parse, blocks[i..], Shown()) == DispatchAll(space, parse, blocks, old(Shown()))
      {
        assert blocks[i..][1..] == blocks[i + 1..];
        var r := ParseSseBlock(space, parse, blocks[i]);
        match r
        case Failure => return false;
        case NoEvent =>
        case Parsed(e) =>
          var handled := Handle(e);
          if !handled { return false; }
      }
      ok := true;
    }

    /** Reads the response, None when the request failed or has no body. */
    method Generate(space: char -> bool, parse: string -> Option<Payload>, response: Option<Response>)
      modifies this
      ensures response.None? ==> Shown() == View("", None, None, Error)
      ensures response.Some? && !response.value.broken && Complete(Concat(response.value.chunks)) == [] ==>
        Shown() == View("", None, None, Loading)
      ensures response.Some? ==>
        var shown := Result(space, parse, Concat(response.value.chunks));
        Shown() == if response.value.broken then shown.(status := Error) else shown
    {
      draft, retrieval, verification, status := "", None, None, Loading;
      if response.None? {
        status := Error;
        return;
      }
      var chunks := response.value.chunks;
      var buffer := "";
      for i := 0 to |chunks|
        invariant buffer == Leftover(Concat(chunks[..i]))
        invariant DispatchAll(space, parse, Complete(Concat(chunks[..i])), EMPTY_VIEW) == (Shown(), true)
      {
        ghost var before, after := Concat(chunks[..i]), Concat(chunks[..i + 1]);
        ConcatNext(chunks, i);
        BlocksContinue(before, chunks[i]);
        buffer := buffer + chunks[i];
        var blocks := Complete(buffer);
        DispatchAppend(space, parse, Complete(before), blocks, EMPTY_VIEW);
        buffer := Leftover(buffer);
        var ok := HandleAll(space, parse, blocks);
        if !ok {
          RestIgnored(space, parse, chunks, i + 1);
          status := Error;
          return;
        }
      }
      assert chunks[..|chunks|] == chunks;
      if response.value.broken { status := Error; }
    }
  }

  /** Once a block fails to parse, later chunks change nothing. */
  lemma RestIgnored(space: char -> bool, parse: string -> Option<Payload>, chunks: seq<string>, i: nat)
    requires i <= |chunks|
    ensures var (v, ok) := DispatchAll(space, parse, Complete(Concat(chunks[..i])), EMPTY_VIEW);
      !ok ==> Result(space, parse, Concat(chunks)) == v.(status := Error)
  {
    hide Blocks, ParseBlock, Concat, Dispatch, DispatchAll, Complete, Leftover;
    var a, b := Concat(chunks[..i]), Concat(chunks[i..]);
    assert chunks == chunks[..i] + chunks[i..];
    ConcatAppend(chunks[..i], chunks[i..]);
    BlocksContinue(a, b);
    DispatchAppend(space, parse, Complete(a), Complete(Leftover(a) + b), EMPTY_VIEW);
    assert Concat(chunks) == a + b;
  }

  // ---------- round trip ----------

  predicate CleanName(space: char -> bool, name: string) { '\n' !in name && Trim(space, name) == name }

  predicate CleanNames(space: char -> bool, events: seq<Event>) {
    forall k | 0 <= k < |events| :: CleanName(space, events[k].name)
  }

  lemma TrimAfterBlank(space: char -> bool, s: string)
    requires space(' ')
    ensures TrimLeft(space, " " + s) == TrimLeft(space, s)
  {
    assert (" " + s)[1..] == s;
  }

  /** A printed event parses back to itself. */
  lemma BodyParses(json: Payload -> string, parse: string -> Option<Payload>, space: char -> bool, e: Event)
    requires Json(json, parse, space) && CleanName(space, e.name)
    ensures ParseBlock(space, parse, Body(e, json)) == Parsed(e)
  {
    var first, second := "event: " + e.name, "data: " + json(e.data);
    assert Body(e, json) == first + ['\n'] + second;
    SplitApart('\n', first, second);
    SplitNothing('\n', second);
    assert SplitAt('\n', Body(e, json)) == [first, second];
    var b0 := Block("message", []);
    assert first[6..] == " " + e.name && second[5..] == " " + json(e.data);
    TrimAfterBlank(space, e.name);
    TrimAfterBlank(space, json(e.data));
    assert StartsWith(first, "event:") && first[0] != "data:"[0];
    var b1 := ReadLine(space, first, b0);
    assert b1 == Block(e.name, []);
    assert StartsWith(second, "data:") && second[0] != "event:"[0];
    assert ReadLine(space, second, b1) == Block(e.name, [json(e.data)]);
    TwoLines(space, first, second, b0);
    assert Join('\n', [json(e.data)]) == json(e.data);
  }

  lemma TwoLines(space: char -> bool, x: string, y: string, b: Block)
    ensures ReadLines(space, [x, y], b) == ReadLine(space, y, ReadLine(space, x, b))
  {
    var b1 := ReadLine(space, x, b);
    assert [x, y][1..] == [y] && [y][1..] == [];
    assert ReadLines(space, [x, y], b) == ReadLines(space, [y], b1);
    assert ReadLines(space, [y], b1) == ReadLines(space, [], ReadLine(space, y, b1));
  }

  /** Text in which no two line breaks touch, and that does not end in one. */
  predicate Solid(s: string) {
    s != "" && s[|s| - 1] != '\n' && forall i | 0 < i < |s| :: s[i - 1] == '\n' ==> s[i] != '\n'
  }

  lemma {:induction false} SolidBlock(s: string, rest: string)
    requires Solid(s)
    ensures Blocks(s + "\n\n" + rest) == [s] + Blocks(rest)
  {
    var whole := s + "\n\n" + rest;
    BlocksStep(whole);
    if |s| == 1 {
      var tail := "\n\n" + rest;
      assert whole[1..] == tail;
      BlocksStep(tail);
      assert tail[2..] == rest;
      assert s == [s[0]] && s == s + "";
    } else {
      assert whole[1..] == s[1..] + "\n\n" + rest;
      SolidBlock(s[1..], rest);
      assert whole[0] == s[0] && whole[1] == s[1];
      assert [s[0]] + s[1..] == s;
    }
  }

  lemma BodySolid(json: Payload -> string, parse: string -> Option<Payload>, space: char -> bool, e: Event)
    requires Json(json, parse, space) && CleanName(space, e.name)
    ensures Solid(Body(e, json))
  {
    var s, first, j := Body(e, json), "event: " + e.name, json(e.data);
    assert s == first + "\ndata: " + j;
    assert s[|s| - 1] == j[|j| - 1];
    forall i | 0 < i < |s| && s[i - 1] == '\n' ensures s[i] != '\n' {
      assert i - 1 >= |first|;
      if i >= |first| + 7 { assert s[i] == j[i - |first| - 7]; }
    }
  }

  /** However the text of the events is cut, the client sees each event once, in
      order, and nothing is left over. */
  lemma {:induction false} EventsArrive(json: Payload -> string, parse: string -> Option<Payload>, space: char -> bool,
      events: seq<Event>)
    requires Json(json, parse, space) && CleanNames(space, events)
    ensures var text := Concat(Printed(events, json));
      && Leftover(text) == ""
      && |Complete(text)| == |events|
      && forall k | 0 <= k < |events| :: ParseBlock(space, parse, Complete(text)[k]) == Parsed(events[k])
  {
    hide Body, ParseBlock, Json, Trim;
    var printed := Printed(events, json);
    if events == [] {
    } else {
      assert printed[1..] == Printed(events[1..], json);
      var rest := Concat(printed[1..]);
      EventsArrive(json, parse, space, events[1..]);
      BodySolid(json, parse, space, events[0]);
      BodyParses(json, parse, space, events[0]);
      SolidBlock(Body(events[0], json), rest);
      assert Concat(printed) == Body(events[0], json) + "\n\n" + rest;
      var r := Blocks(rest);
      assert ([Body(events[0], json)] + r)[..|r|] == [Body(events[0], json)] + r[..|r| - 1];
    }
  }

  // ---------- the whole reply ----------

  function DispatchEach(events: seq<Event>, v: View): View {
    if events == [] then v else DispatchEach(events[1..], Dispatch(v, events[0]))
  }

  lemma {:induction false} DispatchParsed(space: char -> bool, parse: string -> Option<Payload>, blocks: seq<string>,
      events: seq<Event>, v: View)
    requires |blocks| == |events|
    requires forall k | 0 <= k < |events| ::
        ParseBlock(space, parse, blocks[k]) == Parsed(events[k]) && !Throws(events[k])
    ensures DispatchAll(space, parse, blocks, v) == (DispatchEach(events, v), true)
  {
    hide ParseBlock, Dispatch;
    if events == [] {
    } else {
      DispatchParsed(space, parse, blocks[1..], events[1..], Dispatch(v, events[0]));
    }
  }

  lemma {:induction false} DispatchEachAppend(a: seq<Event>, b: seq<Event>, v: View)
    ensures DispatchEach(a + b, v) == DispatchEach(b, DispatchEach(a, v))
  {
    hide Dispatch;
    if a == [] {
      assert a + b == b;
    } else {
      assert (a + b)[1..] == a[1..] + b;
      DispatchEachAppend(a[1..], b, Dispatch(v, a[0]));
    }
  }

  function Spaced(tokens: seq<string>): string {
    if tokens == [] then "" else tokens[0] + " " + Spaced(tokens[1..])
  }

  /** Every token is followed by one space, so the text gains exactly one at its end. */
  lemma {:induction false} SpacedSplit(body: string)
    ensures Spaced(SplitAt(' ', body)) == body + " "
  {
    if body == "" {
      assert [""][1..] == [];
      assert Spaced([""]) == "" + " " + Spaced([]);
    } else {
      var rest := SplitAt(' ', body[1..]);
      SpacedSplit(body[1..]);
      assert body == [body[0]] + body[1..];
      if body[0] == ' ' {
        assert ([""] + rest)[1..] == rest;
      } else {
        var first, more := [body[0]] + rest[0], rest[1..];
        assert ([first] + more)[1..] == more;
        assert first + " " + Spaced(more) == [body[0]] + (rest[0] + " " + Spaced(more));
      }
    }
  }

  lemma {:induction false} TokensDraft(tokens: seq<string>, v: View)
    ensures DispatchEach(TokenEvents(tokens), v) == v.(draft := v.draft + Spaced(tokens))
  {
    if tokens == [] {
    } else {
      var events := TokenEvents(tokens);
      assert events[1..] == TokenEvents(tokens[1..]);
      var u := Dispatch(v, events[0]);
      assert u == v.(draft := v.draft + (tokens[0] + " "));
      TokensDraft(tokens[1..], u);
    }
  }

  /** What the user should see of a reply. */
  function Delivered(r: Reply): View {
    match r
    case Abstained(retrieval, _) => View("", Some(Plain(retrieval)), None, Refused)
    case Grounded(retrieval, body, _, verification, _) =>
        View(body + " ", Some(Plain(retrieval)), Some(Plain(verification)), Done)
  }

  lemma ReplyDispatched(r: Reply)
    ensures DispatchEach(ReplyEvents(r), EMPTY_VIEW) == Delivered(r)
  {
    match r
    case Abstained(retrieval, reason) =>
      OneMore(Event("retrieval", Plain(retrieval)), [Event("abstain", Plain(reason))], EMPTY_VIEW);
      OneMore(Event("abstain", Plain(reason)), [], EMPTY_VIEW.(retrieval := Some(Plain(retrieval))));
    case Grounded(retrieval, body, claim, verification, receipt) =>
      var tokens := SplitAt(' ', body);
      var tail := [Event("claim", Plain(claim)), Event("verification", Plain(verification)),
          Event("done", Plain(receipt))];
      var v := EMPTY_VIEW.(retrieval := Some(Plain(retrieval)));
      var first := Event("retrieval", Plain(retrieval));
      assert ReplyEvents(r) == [first] + (TokenEvents(tokens) + tail);
      OneMore(first, TokenEvents(tokens) + tail, EMPTY_VIEW);
      assert Dispatch(EMPTY_VIEW, first) == v;
      DispatchEachAppend(TokenEvents(tokens), tail, v);
      TokensDraft(tokens, v);
      SpacedSplit(body);
      assert "" + Spaced(tokens) == body + " ";
      LastThree(claim, verification, receipt, v.(draft := body + " "));
  }

  lemma OneMore(e: Event, rest: seq<Event>, v: View)
    ensures DispatchEach([e] + rest, v) == DispatchEach(rest, Dispatch(v, e))
  {
    assert ([e] + rest)[1..] == rest;
  }

  lemma LastThree(claim: string, verification: string, receipt: string, v: View)
    ensures DispatchEach([Event("claim", Plain(claim)), Event("verification", Plain(verification)),
                          Event("done", Plain(receipt))], v)
         == v.(verification := Some(Plain(verification)), status := Done)
  {
    var c, f, d := Event("claim", Plain(claim)), Event("verification", Plain(verification)),
        Event("done", Plain(receipt));
    assert [c, f, d] == [c] + [f, d] && [f, d] == [f] + [d] && [d] == [d] + [];
    OneMore(c, [f, d], v);
    assert "claim"[0] != "token"[0] && Dispatch(v, c) == v;
    OneMore(f, [d], v);
    OneMore(d, [], Dispatch(v, f));
  }

  lemma ReplyNames(space: char -> bool, r: Reply)
    requires forall c | AsciiLetter(c) :: !space(c)
    ensures CleanNames(space, ReplyEvents(r))
  {
    hide CleanName, Trim;
    LettersClean(space, "retrieval");
    LettersClean(space, "abstain");
    LettersClean(space, "token");
    LettersClean(space, "claim");
    LettersClean(space, "verification");
    LettersClean(space, "done");
  }

  /** The server sends objects only. */
  lemma NothingThrows(r: Reply)
    ensures forall k | 0 <= k < |ReplyEvents(r)| :: !Throws(ReplyEvents(r)[k])
  {
    assert forall k | 0 <= k < |ReplyEvents(r)| :: ReplyEvents(r)[k].data.Payload?;
  }

  lemma LettersClean(space: char -> bool, name: string)
    requires forall c | AsciiLetter(c) :: !space(c)
    requires name != "" && forall i | 0 <= i < |name| :: AsciiLetter(name[i])
    ensures CleanName(space, name)
  {
    var a, b := TrimSlice(space, name);
  }

  /** End to end: however the network cuts the stream, the studio shows the body and
      one trailing space, the retrieval and verification objects, and the outcome. */
  lemma ReplyArrives(json: Payload -> string, parse: string -> Option<Payload>, space: char -> bool, r: Reply,
      chunks: seq<string>)
    requires Json(json, parse, space) && forall c | AsciiLetter(c) :: !space(c)
    requires Concat(chunks) == Concat(Printed(ReplyEvents(r), json))
    ensures Result(space, parse, Concat(chunks)) == Delivered(r)
    ensures Leftover(Concat(chunks)) == ""
  {
    NothingThrows(r);
    hide ReplyEvents, Json, Blocks, Delivered, ParseBlock, Throws;
    ReplyNames(space, r);
    EventsArrive(json, parse, space, ReplyEvents(r));
    DispatchParsed(space, parse, Complete(Concat(chunks)), ReplyEvents(r), EMPTY_VIEW);
    ReplyDispatched(r);
  }
}
