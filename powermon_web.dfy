/**
  The graph web server (powermon_web.py): a GET without a `graph` query
  parameter gets an HTML page that shows five graphs, and a GET with one gets
  the PNG that `rrdtool graph` draws for the named window of the database.

  The HTTP server, `urlparse`/`parse_qs`, the temporary file and running
  rrdtool are outside the model: a request is its parsed query, the temporary
  file's name and the bytes rrdtool leaves in it are parameters, and the
  command is returned as a string. What the handler sends is a list of parts.
 */
module PowerMonWeb {
  import opened Wrappers
  import opened Text

  // ---------------------------------------------------------------------------
  // The graph windows and the rrdtool graph commands
  // ---------------------------------------------------------------------------

  /** The two command templates: min, max and average lines, or the stored values alone. */
  datatype Template = MinMaxAverage | LastOnly

  /** A graph window: its template, the span after `--start end-`, and the `step=` of its DEFs. */
  datatype Window = Window(template: Template, duration: string, step: string)

  /** The if/elif table of `renderGraphImage`; any other name has no window. */
  function WindowFor(name: string): Option<Window>
  {
    if name == "6h" then Some(Window(MinMaxAverage, "6h", "300"))
    else if name == "1h" then Some(Window(MinMaxAverage, "1h", "30"))
    else if name == "1h_raw" then Some(Window(LastOnly, "1h", "10"))
    else if name == "24h" then Some(Window(MinMaxAverage, "24h", "300"))
    else if name == "7d" then Some(Window(MinMaxAverage, "7d", "600"))
    else None
  }

  /** The time span of a graph: from `duration` before its end up to now. */
  function TimeSpan(duration: string): string
  {
    "--start end-" + duration + " --end now"
  }

  const ImageOptions: string := " --width 1200 --height 480  \t--imgformat PNG \t"
  const LabelOptions: string := " \t--slope-mode --vertical-label Watts \t"

  /**
    The lines shared by both templates, up to the DEFs. Each backslash-newline
    of the Python literal joins the next line with its leading tab.
   */
  function GraphHead(filename: string, duration: string): string
  {
    "rrdtool graph " + filename + ImageOptions + TimeSpan(duration) + LabelOptions
  }

  /**
    One `DEF:` line: the variable `name` reads data source `watts` of
    `rrdFile`, consolidated by `cf`, at resolution `step`.
   */
  function Def(name: string, rrdFile: string, cf: string, step: string): string
  {
    "DEF:" + name + "=" + rrdFile + (":watts:" + cf) + (":step=" + step) + " \t"
  }

  const MinMaxAverageTail: string :=
    "CDEF:Range=MaxPower,MinPower,-    \tLINE1:MinPower#00FF00:\"Min\" \tAREA:Range#8dadf5::STACK \t"
    + "LINE1:MaxPower#FF0000:\"Max\" \tLINE2:Power#0000FF:\"Average\" \t"

  const LastOnlyTail: string := "LINE1:Power#0000FF:\"Actual\" \t"

  /** The command `renderGraphImage` formats for window `w`, drawing into `filename`. */
  function GraphCommand(filename: string, rrdFile: string, w: Window): string
  {
    match w.template
    case MinMaxAverage =>
      GraphHead(filename, w.duration)
      + Def("MinPower", rrdFile, "MIN", w.step)
      + Def("MaxPower", rrdFile, "MAX", w.step)
      + Def("Power", rrdFile, "AVERAGE", w.step)
      + MinMaxAverageTail
    case LastOnly =>
      GraphHead(filename, w.duration) + Def("Power", rrdFile, "LAST", w.step) + LastOnlyTail
  }

  /** The data definitions a template reads: three consolidations, or the stored values. */
  function Defs(rrdFile: string, w: Window): seq<string>
  {
    match w.template
    case MinMaxAverage =>
      [Def("MinPower", rrdFile, "MIN", w.step), Def("MaxPower", rrdFile, "MAX", w.step),
       Def("Power", rrdFile, "AVERAGE", w.step)]
    case LastOnly => [Def("Power", rrdFile, "LAST", w.step)]
  }

  /** A data definition reads the database file, with its consolidation and the window's step. */
  lemma DefReadsFile(name: string, rrdFile: string, cf: string, step: string)
    ensures OccursAt(Def(name, rrdFile, cf, step), rrdFile, |name| + 5)
    ensures Contains(Def(name, rrdFile, cf, step), ":watts:" + cf)
    ensures Contains(Def(name, rrdFile, cf, step), ":step=" + step)
  {
    var opening := "DEF:" + name + "=";
    PartsOfFive(opening, rrdFile, ":watts:" + cf, ":step=" + step, " \t");
  }

  /** The head starts with the file drawn into, and holds the time span. */
  lemma HeadShape(filename: string, duration: string)
    ensures StartsWith(GraphHead(filename, duration), "rrdtool graph " + filename + ImageOptions)
    ensures Contains(GraphHead(filename, duration), TimeSpan(duration))
  {
    PartsOfFive("rrdtool graph ", filename, ImageOptions, TimeSpan(duration), LabelOptions);
  }

  /** The min/max/average command begins with the head and holds its three DEFs. */
  lemma AverageCommandParts(filename: string, rrdFile: string, w: Window)
    requires w.template == MinMaxAverage
    ensures OccursAt(GraphCommand(filename, rrdFile, w), GraphHead(filename, w.duration), 0)
    ensures forall k :: 0 <= k < 3 ==> Contains(GraphCommand(filename, rrdFile, w), Defs(rrdFile, w)[k])
  {
    var defs := Defs(rrdFile, w);
    PartsOfFive(GraphHead(filename, w.duration), defs[0], defs[1], defs[2], MinMaxAverageTail);
  }

  /** The raw command begins with the head and holds its one DEF. */
  lemma RawCommandParts(filename: string, rrdFile: string, w: Window)
    requires w.template == LastOnly
    ensures OccursAt(GraphCommand(filename, rrdFile, w), GraphHead(filename, w.duration), 0)
    ensures Contains(GraphCommand(filename, rrdFile, w), Defs(rrdFile, w)[0])
  {
    var head, def := GraphHead(filename, w.duration), Defs(rrdFile, w)[0];
    OccursAtEnds(head + def, LastOnlyTail);
    OccursAtEnds(head, def);
    OccursWithin(head + def + LastOnlyTail, head + def, 0, head, 0);
    OccursWithin(head + def + LastOnlyTail, head + def, 0, def, |head|);
  }

  /**
    The command draws into the temporary file, spans the window's duration and
    contains each of the window's data definitions, all of which read the
    database file: three for the min/max/average template, one for the raw one.
   */
  lemma GraphCommandShape(filename: string, rrdFile: string, w: Window)
    ensures StartsWith(GraphCommand(filename, rrdFile, w), "rrdtool graph " + filename + ImageOptions)
    ensures Contains(GraphCommand(filename, rrdFile, w), TimeSpan(w.duration))
    ensures |Defs(rrdFile, w)| == if w.template == MinMaxAverage then 3 else 1
    ensures forall k :: 0 <= k < |Defs(rrdFile, w)| ==>
      Contains(GraphCommand(filename, rrdFile, w), Defs(rrdFile, w)[k])
      && Contains(Defs(rrdFile, w)[k], rrdFile)
  {
    var cmd := GraphCommand(filename, rrdFile, w);
    var head := GraphHead(filename, w.duration);
    if w.template == MinMaxAverage {
      AverageCommandParts(filename, rrdFile, w);
      DefReadsFile("MinPower", rrdFile, "MIN", w.step);
      DefReadsFile("MaxPower", rrdFile, "MAX", w.step);
      DefReadsFile("Power", rrdFile, "AVERAGE", w.step);
    } else {
      RawCommandParts(filename, rrdFile, w);
      DefReadsFile("Power", rrdFile, "LAST", w.step);
    }
    HeadShape(filename, w.duration);
    var opening := "rrdtool graph " + filename + ImageOptions;
    assert OccursAt(head, opening, 0);
    OccursWithin(cmd, head, 0, opening, 0);
    var i :| OccursAt(head, TimeSpan(w.duration), i);
    OccursWithin(cmd, head, 0, TimeSpan(w.duration), i);
  }

  // ---------------------------------------------------------------------------
  // The HTML page
  // ---------------------------------------------------------------------------

  /** A heading and the image of one graph window. */
  datatype Section = Section(title: string, window: string)

  const PageSections: seq<Section> := [
    Section("Previous 1 Hour", "1h"),
    Section("Previous 1 Hour Actual Values", "1h_raw"),
    Section("Previous 6 Hours", "6h"),
    Section("Previous 24 Hours", "24h"),
    Section("Previous 7 days", "7d")
  ]

  /** The image element that asks for a graph (with the stray quote the page has). */
  function ImgTag(window: string): string
  {
    "<img src=\"?graph=" + window + "\" border=0\"/>\n"
  }

  function SectionHtml(s: Section): string
  {
    "<h1>" + s.title + "</h1>\n" + ImgTag(s.window)
  }

  function SectionsHtml(sections: seq<Section>): string
    decreases |sections|
  {
    if sections == [] then "" else SectionHtml(sections[0]) + SectionsHtml(sections[1..])
  }

  const PageHead: string := "\n<html>\n<head>\n<title>Power Consumption</title>\n</head>\n<body>\n"
  const PageFoot: string := "</body>\n</html>\n\t"

  /** The page `renderHTML` writes. */
  function Page(): string
  {
    PageHead + SectionsHtml(PageSections) + PageFoot
  }

  /** The windows the page asks for, in page order. */
  function PageWindows(): (ws: seq<string>)
    ensures |ws| == |PageSections|
    ensures forall k :: 0 <= k < |ws| ==> ws[k] == PageSections[k].window
  {
    ["1h", "1h_raw", "6h", "24h", "7d"]
  }

  /** Each section's text is found in the text of the sections. */
  lemma {:induction false} SectionInSections(sections: seq<Section>, k: nat)
    requires k < |sections|
    ensures Contains(SectionsHtml(sections), SectionHtml(sections[k]))
    decreases k
  {
    var first := SectionHtml(sections[0]);
    var rest := SectionsHtml(sections[1..]);
    if k == 0 {
      assert SectionsHtml(sections) == "" + first + rest;
      OccursBetween("", first, rest);
    } else {
      SectionInSections(sections[1..], k - 1);
      var i :| OccursAt(rest, SectionHtml(sections[k]), i);
      assert OccursAt(SectionsHtml(sections), rest, |first|) by {
        assert SectionsHtml(sections) == first + rest + "";
        OccursBetween(first, rest, "");
      }
      OccursWithin(SectionsHtml(sections), rest, |first|, SectionHtml(sections[k]), i);
    }
  }

  /** The page holds the image of every window it lists. */
  lemma PageShowsEveryWindow(k: nat)
    requires k < |PageSections|
    ensures Contains(Page(), ImgTag(PageSections[k].window))
  {
    var section := PageSections[k];
    SectionInSections(PageSections, k);
    var i :| OccursAt(SectionsHtml(PageSections), SectionHtml(section), i);
    assert OccursAt(Page(), SectionsHtml(PageSections), |PageHead|) by {
      OccursBetween(PageHead, SectionsHtml(PageSections), PageFoot);
    }
    OccursWithin(Page(), SectionsHtml(PageSections), |PageHead|, SectionHtml(section), i);
    var heading := "<h1>" + section.title + "</h1>\n";
    assert SectionHtml(section) == heading + ImgTag(section.window) + "";
    OccursBetween(heading, ImgTag(section.window), "");
    OccursWithin(Page(), SectionHtml(section), |PageHead| + i, ImgTag(section.window), |heading|);
  }

  /**
    The page and the table agree: the page asks for five distinct windows, and
    a name has a graph window exactly when the page asks for it.
   */
  lemma PageMatchesWindowTable()
    ensures forall name :: WindowFor(name).Some? <==> name in PageWindows()
    ensures forall j, k :: 0 <= j < k < |PageWindows()| ==> PageWindows()[j] != PageWindows()[k]
  {
  }

  // ---------------------------------------------------------------------------
  // GET requests
  // ---------------------------------------------------------------------------

  /**
    What a GET produces: the status, the content type, the body written (none
    when nothing is written) and the rrdtool command run (none when none is).
   */
  datatype Reply = Reply(status: int, contentType: string, body: Option<string>, command: Option<string>)

  /** What `parse_qs` guarantees: every parameter it returns has at least one value. */
  predicate WellFormedQuery(query: map<string, seq<string>>)
  {
    "graph" in query ==> |query["graph"]| > 0
  }

  /**
    The reply of `do_GET` to the parsed `query`, for database `rrdFile`, when
    the temporary file is `tmpfile` and rrdtool leaves `image` in it.
   */
  function Respond(rrdFile: string, query: map<string, seq<string>>, tmpfile: string, image: string): Reply
    requires WellFormedQuery(query)
  {
    if "graph" !in query then Reply(200, "text/html", Some(Page()), None)
    else
      match WindowFor(query["graph"][0])
      case None => Reply(200, "image/png", None, None)
      case Some(w) => Reply(200, "image/png", Some(image), Some(GraphCommand(tmpfile, rrdFile, w)))
  }

  /**
    Every GET answers 200; the page is served exactly when there is no `graph`
    parameter; only a known window runs rrdtool and writes an image, and an
    unknown one gets an image reply with no body.
   */
  lemma RespondCases(rrdFile: string, query: map<string, seq<string>>, tmpfile: string, image: string)
    requires WellFormedQuery(query)
    ensures Respond(rrdFile, query, tmpfile, image).status == 200
    ensures Respond(rrdFile, query, tmpfile, image).contentType == "text/html" <==> "graph" !in query
    ensures Respond(rrdFile, query, tmpfile, image).contentType == "image/png" <==> "graph" in query
    ensures Respond(rrdFile, query, tmpfile, image).body == Some(Page()) <== "graph" !in query
    ensures Respond(rrdFile, query, tmpfile, image).body.None? <==>
      "graph" in query && WindowFor(query["graph"][0]).None?
    ensures Respond(rrdFile, query, tmpfile, image).command.Some? <==>
      "graph" in query && WindowFor(query["graph"][0]).Some?
  {
  }

  /** Only the first `graph` value counts; later ones and other parameters change nothing. */
  lemma FirstGraphValueSelects(rrdFile: string, query: map<string, seq<string>>, tmpfile: string, image: string,
                               more: seq<string>, other: string, values: seq<string>)
    requires WellFormedQuery(query) && "graph" in query && other != "graph"
    ensures WellFormedQuery(query["graph" := [query["graph"][0]] + more][other := values])
    ensures Respond(rrdFile, query["graph" := [query["graph"][0]] + more][other := values], tmpfile, image)
         == Respond(rrdFile, query, tmpfile, image)
  {
  }

  /** A graph reply runs the command of the requested window, drawing into the temporary file. */
  lemma GraphReplyCommand(rrdFile: string, query: map<string, seq<string>>, tmpfile: string, image: string)
    requires WellFormedQuery(query) && "graph" in query && WindowFor(query["graph"][0]).Some?
    ensures Respond(rrdFile, query, tmpfile, image).body == Some(image)
    ensures Respond(rrdFile, query, tmpfile, image).command
         == Some(GraphCommand(tmpfile, rrdFile, WindowFor(query["graph"][0]).value))
    ensures StartsWith(Respond(rrdFile, query, tmpfile, image).command.value, "rrdtool graph " + tmpfile + ImageOptions)
  {
    GraphCommandShape(tmpfile, rrdFile, WindowFor(query["graph"][0]).value);
  }

  /** What the handler sends, in order. */
  datatype Part = StatusLine(code: int) | Header(name: string, value: string) | EndOfHeaders | Body(data: string)

  /** The parts that carry a reply. */
  function Wire(r: Reply): seq<Part>
  {
    [StatusLine(r.status), Header("Content-type", r.contentType), EndOfHeaders]
    + (if r.body.Some? then [Body(r.body.value)] else [])
  }

  /**
    The request handler: `BaseHTTPRequestHandler`'s output primitives and the
    three functions of the server, which send their parts one by one. The
    `Server` and `Date` headers that `send_response` adds after the status
    line are not recorded.
   */
  class Handler {
    /** The database file given on the command line (`RRD_FILE`). */
    const rrdFile: string
    var sent: seq<Part>

    constructor(rrdFile: string)
      ensures this.rrdFile == rrdFile && sent == []
    {
      this.rrdFile := rrdFile;
      sent := [];
    }

    method SendResponse(code: int)
      modifies this
      ensures sent == old(sent) + [StatusLine(code)]
    {
      sent := sent + [StatusLine(code)];
    }

    method SendHeader(name: string, value: string)
      modifies this
      ensures sent == old(sent) + [Header(name, value)]
    {
      sent := sent + [Header(name, value)];
    }

    method EndHeaders()
      modifies this
      ensures sent == old(sent) + [EndOfHeaders]
    {
      sent := sent + [EndOfHeaders];
    }

    method Write(data: string)
      modifies this
      ensures sent == old(sent) + [Body(data)]
    {
      sent := sent + [Body(data)];
    }

    /** `do_GET`: status 200 first, then the page or the graph. */
    method DoGet(query: map<string, seq<string>>, tmpfile: string, image: string) returns (command: Option<string>)
      requires WellFormedQuery(query)
      modifies this
      ensures sent == old(sent) + Wire(Respond(rrdFile, query, tmpfile, image))
      ensures command == Respond(rrdFile, query, tmpfile, image).command
    {
      SendResponse(200);
      if "graph" !in query {
        RenderHtml();
        command := None;
      } else {
        command := RenderGraphImage(query["graph"][0], tmpfile, image);
      }
    }

    /** `renderHTML`: the HTML content type and the page. */
    method RenderHtml()
      modifies this
      ensures sent == old(sent) + [Header("Content-type", "text/html"), EndOfHeaders, Body(Page())]
    {
      SendHeader("Content-type", "text/html");
      EndHeaders();
      Write(Page());
    }

    /**
      `renderGraphImage`: the PNG content type, then, for a known window, the
      rrdtool command and the bytes it left in the temporary file; for any
      other name the headers are all that is sent.
     */
    method RenderGraphImage(graphType: string, tmpfile: string, image: string) returns (command: Option<string>)
      modifies this
      ensures command == if WindowFor(graphType).Some? then Some(GraphCommand(tmpfile, rrdFile, WindowFor(graphType).value)) else None
      ensures sent == old(sent) + [Header("Content-type", "image/png"), EndOfHeaders]
                      + (if command.Some? then [Body(image)] else [])
    {
      SendHeader("Content-type", "image/png");
      EndHeaders();
      var window := WindowFor(graphType);
      if window.None? {
        return None;
      }
      command := Some(GraphCommand(tmpfile, rrdFile, window.value));
      Write(image);
    }
  }
}
