/**
  The JSON-format forwarder (powermon2.py): it reads the JSON lines rtl_433
  prints, keeps the readings of two known sensor models and publishes each one
  to an MQTT topic named after the model and the sensor id. When rtl_433 exits
  it waits 60 seconds and launches it again. Only an exception outside the
  per-line handler, such as rtl_433 failing to start, ends the program.

  JSON decoding, Python's `int()` and the MQTT client are outside the model:
  a line comes with the object `json.loads` produced (or `None` when it raised),
  `int()` is the partial conversion `PyInt`, and whether the broker took a
  message is part of the event. The effects of the loop are a trace of actions.
 */
module PowerMon2 {
  import opened Wrappers
  import opened Text

  /** A JSON value as Python holds it after `json.loads`. */
  datatype Value =
    | JInt(i: int)
    | JBool(b: bool)
    | JStr(s: string)
    | JNull
      /** A finite float, with the text `str()` renders for it. */
    | JFloat(r: real, text: string)
      /** `NaN`, `Infinity` or `-Infinity`, which `json.loads` accepts. */
    | JNonFinite(text: string)
      /** A list or an object, with the text `str()` renders for it. */
    | JComposite(text: string)

  /** `int(s)` on a string: an optional sign and ASCII digits. */
  function ParseInt(s: string): (r: Option<int>)
  {
    if |s| >= 2 && s[0] == '-' && AllDigits(s[1..]) then Some(-(DecimalValue(s[1..]) as int))
    else if |s| >= 2 && s[0] == '+' && AllDigits(s[1..]) then Some(DecimalValue(s[1..]))
    else if |s| >= 1 && AllDigits(s) then Some(DecimalValue(s))
    else None
  }

  /** `int(x)` truncates a float toward zero. */
  function Truncate(r: real): (t: int)
    ensures 0.0 <= r ==> t as real <= r < t as real + 1.0
    ensures r < 0.0 ==> t as real - 1.0 < r <= t as real
  {
    if r >= 0.0 then r.Floor else -((-r).Floor)
  }

  /** Python's `int(x)`; `None` where it raises. */
  function PyInt(v: Value): (r: Option<int>)
  {
    match v
    case JInt(i) => Some(i)
    case JBool(b) => Some(if b then 1 else 0)
    case JStr(s) => ParseInt(s)
    case JFloat(r, _) => Some(Truncate(r))
    case JNonFinite(_) => None
    case JNull => None
    case JComposite(_) => None
  }

  /** Python's `str(x)`, which `format` applies to the id. */
  function PyStr(v: Value): (s: string)
  {
    match v
    case JInt(i) => if i < 0 then "-" + Decimal(-i) else Decimal(i)
    case JBool(b) => if b then "True" else "False"
    case JStr(s) => s
    case JNull => "None"
    case JFloat(_, text) => text
    case JNonFinite(text) => text
    case JComposite(text) => text
  }

  /** `int` reads back what `str` renders for an integer. */
  lemma PyIntReadsPyStr(i: int)
    ensures PyInt(JStr(PyStr(JInt(i)))) == Some(i)
  {
    if i < 0 {
      NegativeRoundTrip(i);
    } else {
      var s := Decimal(i);
      assert IsDigit(s[0]);
      DecimalRoundTrip(i);
    }
  }

  lemma NegativeRoundTrip(i: int)
    requires i < 0
    ensures ParseInt("-" + Decimal(-i)) == Some(i)
  {
    var s := "-" + Decimal(-i);
    assert s[1..] == Decimal(-i);
    DecimalRoundTrip(-i);
  }

  /** Distinct integer ids are rendered as distinct texts. */
  lemma PyStrDistinguishesInts(i: int, j: int)
    requires PyStr(JInt(i)) == PyStr(JInt(j))
    ensures i == j
  {
    PyIntReadsPyStr(i);
    PyIntReadsPyStr(j);
  }

  // ---------------------------------------------------------------------------
  // The decision taken for one line
  // ---------------------------------------------------------------------------

  const Cm180: string := "CM180"
  const WgPb12v1: string := "WG-PB12V1"

  /** The models whose readings are forwarded. */
  const KnownModels: seq<string> := [Cm180, WgPb12v1]

  const PowerKey: string := "power_W"

  /** The second argument of the `max` applied to a CM180 power reading. */
  const PowerBound: int := 5000

  const TopicPrefix: string := "homeassistant/sensor/"

  /** `"homeassistant/sensor/{}/{}".format(model, id)` with both already rendered. */
  function TopicFor(model: string, id: string): (t: string)
    ensures StartsWith(t, TopicPrefix)
  {
    TopicPrefix + model + "/" + id
  }

  /** Python's `model in ['CM180','WG-PB12V1']`: only a string can be equal to either. */
  predicate KnownModel(v: Value)
  {
    v.JStr? && v.s in KnownModels
  }

  function Max(a: int, b: int): int
  {
    if a >= b then a else b
  }

  /** Why a line raised and was dropped. */
  datatype DropReason = Undecodable | NoModel | NoId | BadPower

  /**
    What happens to one line: it raises and is dropped, it is skipped because
    the model is not a known one, or it is published. A published line carries
    its topic, the payload handed to the broker, and the decoded object as the
    code has updated it.
   */
  datatype Decision =
    | Dropped(reason: DropReason)
    | Ignored
    | Forward(topic: string, payload: string, record: map<string, Value>)

  /** The decision for `line`, whose decoding is `decoded` (`None` when `json.loads` raised). */
  function Decide(line: string, decoded: Option<map<string, Value>>): Decision
  {
    match decoded
    case None => Dropped(Undecodable)
    case Some(m) =>
      if "model" !in m then Dropped(NoModel)
      else if "id" !in m then Dropped(NoId)
      else if !KnownModel(m["model"]) then Ignored
      else if m["model"] != JStr(Cm180) then Forward(TopicFor(m["model"].s, PyStr(m["id"])), line, m)
      else if PowerKey !in m then Forward(TopicFor(Cm180, PyStr(JInt(1))), line, m)
      else
        match PyInt(m[PowerKey])
        case None => Dropped(BadPower)
        case Some(p) => Forward(TopicFor(Cm180, PyStr(JInt(1))), line, m[PowerKey := JInt(Max(p, PowerBound))])
  }

  /**
    The per-line body of the loop, step by step: the id is read before the
    model is checked, the CM180 id is replaced by 1 and its power reading is
    rewritten in the decoded object.
   */
  method HandleLine(line: string, decoded: Option<map<string, Value>>) returns (d: Decision)
    ensures d == Decide(line, decoded)
  {
    if decoded.None? {
      return Dropped(Undecodable);
    }
    var m := decoded.value;
    if "model" !in m {
      return Dropped(NoModel);
    }
    var model := m["model"];
    if "id" !in m {
      return Dropped(NoId);
    }
    var id := m["id"];
    if !KnownModel(model) {
      return Ignored;
    }
    if model == JStr(Cm180) {
      id := JInt(1);
      if PowerKey in m {
        var p := PyInt(m[PowerKey]);
        if p.None? {
          return Dropped(BadPower);
        }
        m := m[PowerKey := JInt(Max(p.value, PowerBound))];
      }
    }
    d := Forward(TopicFor(model.s, PyStr(id)), line, m);
  }

  /** Which lines are dropped, skipped or published, and with what topic and payload. */
  lemma DecideCases(line: string, decoded: Option<map<string, Value>>)
    ensures Decide(line, decoded) == Dropped(Undecodable) <==> decoded.None?
    ensures Decide(line, decoded) == Dropped(NoModel) <==> decoded.Some? && "model" !in decoded.value
    ensures Decide(line, decoded) == Dropped(NoId) <==>
      decoded.Some? && "model" in decoded.value && "id" !in decoded.value
    ensures Decide(line, decoded) == Ignored <==>
      decoded.Some? && "model" in decoded.value && "id" in decoded.value && !KnownModel(decoded.value["model"])
    ensures Decide(line, decoded) == Dropped(BadPower) <==>
      decoded.Some? && "model" in decoded.value && "id" in decoded.value
      && decoded.value["model"] == JStr(Cm180)
      && PowerKey in decoded.value && PyInt(decoded.value[PowerKey]).None?
    ensures Decide(line, decoded).Forward? ==>
      decoded.Some? && KnownModel(decoded.value["model"]) && "id" in decoded.value
      && Decide(line, decoded).payload == line
      && Decide(line, decoded).topic ==
           TopicFor(decoded.value["model"].s,
                    if decoded.value["model"] == JStr(Cm180) then "1" else PyStr(decoded.value["id"]))
  {
    assert Decimal(1) == "1";
  }

  /** The payload published is the line as read, whatever the code did to the decoded object. */
  lemma PayloadIsRawLine(line: string, decoded: Option<map<string, Value>>)
    requires Decide(line, decoded).Forward?
    ensures Decide(line, decoded).payload == line
    ensures Decide(line, decoded).record != decoded.value ==>
      Decide(line, decoded).record == decoded.value[PowerKey := Decide(line, decoded).record[PowerKey]]
  {
  }

  /** Every CM180 reading goes to the same topic, whatever id the sensor sent. */
  lemma Cm180TopicIgnoresId(line1: string, m1: map<string, Value>, line2: string, m2: map<string, Value>)
    requires Decide(line1, Some(m1)).Forward? && Decide(line2, Some(m2)).Forward?
    requires m1["model"] == JStr(Cm180) && m2["model"] == JStr(Cm180)
    ensures Decide(line1, Some(m1)).topic == Decide(line2, Some(m2)).topic == TopicPrefix + "CM180/1"
  {
    assert Decimal(1) == "1";
  }

  /** A CM180 line without an id is dropped even though its id would not be used. */
  lemma IdRequiredEvenForCm180(line: string, m: map<string, Value>)
    requires "model" in m && m["model"] == JStr(Cm180) && "id" !in m
    ensures Decide(line, Some(m)) == Dropped(NoId)
  {
  }

  /**
    The `max` raises every reading to at least 5000 and leaves it unchanged
    only when it was already 5000 or more: a lower bound, not a cap.
   */
  lemma PowerAdjustment(line: string, m: map<string, Value>, p: int)
    requires "model" in m && m["model"] == JStr(Cm180) && "id" in m
    requires PowerKey in m && PyInt(m[PowerKey]) == Some(p)
    ensures Decide(line, Some(m)).Forward?
    ensures Decide(line, Some(m)).record[PowerKey].JInt?
    ensures Decide(line, Some(m)).record[PowerKey].i >= PowerBound
    ensures Decide(line, Some(m)).record[PowerKey].i == p <==> p >= PowerBound
  {
  }

  /** Different models, or different ids of one model, give different topics. */
  lemma {:induction false} TopicDeterminesSensor(model1: string, id1: string, model2: string, id2: string)
    requires model1 in KnownModels && model2 in KnownModels
    requires TopicFor(model1, id1) == TopicFor(model2, id2)
    ensures model1 == model2 && id1 == id2
  {
    var t := TopicFor(model1, id1);
    assert t[|TopicPrefix|] == model1[0];
    assert t[|TopicPrefix|] == TopicFor(model2, id2)[|TopicPrefix|] == model2[0];
    assert model1 == model2;
    var n := |TopicPrefix| + |model1| + 1;
    assert t[n..] == id1;
    assert TopicFor(model2, id2)[n..] == id2;
  }

  // ---------------------------------------------------------------------------
  // The restart loop
  // ---------------------------------------------------------------------------

  /**
    What the loop sees: a line of rtl_433's output, the end of that output, or
    an exception raised outside the per-line `try` (`Popen` failing to start
    rtl_433, or reading its output failing), which leaves `main`.
   */
  datatype Event =
    | Line(text: string, decoded: Option<map<string, Value>>, brokerAccepts: bool)
    | EndOfOutput
    | Raised

  /**
    What the loop does: launch rtl_433, publish a message, report an error,
    sleep, or end the program after an exception escapes `main`.
   */
  datatype Action = Launch | Published(topic: string, payload: string) | Failed | Sleep(seconds: nat) | Exited

  /** The pause before rtl_433 is launched again. */
  const CooldownSeconds: nat := 60

  /** The actions for one line; a publish the broker refuses raises like any other error. */
  function LineActions(text: string, decoded: Option<map<string, Value>>, brokerAccepts: bool): (acts: seq<Action>)
    ensures |acts| <= 1
    ensures forall k :: 0 <= k < |acts| ==> acts[k].Published? || acts[k].Failed?
  {
    match Decide(text, decoded)
    case Forward(topic, payload, _) => if brokerAccepts then [Published(topic, payload)] else [Failed]
    case Dropped(_) => [Failed]
    case Ignored => []
  }

  function EventActions(e: Event): seq<Action>
  {
    match e
    case Line(text, decoded, brokerAccepts) => LineActions(text, decoded, brokerAccepts)
    case EndOfOutput => [Sleep(CooldownSeconds), Launch]
    case Raised => [Exited]
  }

  /** Whether an exception has left `main` during `events`. */
  predicate Stopped(events: seq<Event>)
  {
    exists k :: 0 <= k < |events| && events[k].Raised?
  }

  /**
    All the actions of the program over `events`, starting with the first
    launch; the events after an exception has ended it have no effect.
   */
  function Trace(events: seq<Event>): (t: seq<Action>)
    ensures |t| >= 1
    decreases |events|
  {
    if events == [] then [Launch]
    else if Stopped(events[..|events| - 1]) then Trace(events[..|events| - 1])
    else Trace(events[..|events| - 1]) + EventActions(events[|events| - 1])
  }

  /** The loop over a finite prefix of the events it receives. */
  method Supervise(events: seq<Event>) returns (trace: seq<Action>)
    ensures trace == Trace(events)
  {
    trace := [Launch];
    var i := 0;
    while i < |events|
      invariant i <= |events|
      invariant trace == Trace(events[..i])
      invariant !Stopped(events[..i])
    {
      assert events[..i + 1] == events[..i] + [events[i]];
      TraceStep(events[..i], events[i]);
      match events[i] {
        case Raised =>
          trace := trace + [Exited];
          NothingAfterExit(events[..i + 1], events[i + 1..]);
          assert events[..i + 1] + events[i + 1..] == events;
          return;
        case EndOfOutput =>
          trace := trace + [Sleep(CooldownSeconds), Launch];
        case Line(text, decoded, brokerAccepts) =>
          var d := HandleLine(text, decoded);
          match d {
            case Forward(topic, payload, _) =>
              if brokerAccepts {
                trace := trace + [Published(topic, payload)];
              } else {
                trace := trace + [Failed];
              }
            case Dropped(_) =>
              trace := trace + [Failed];
            case Ignored =>
          }
      }
      i := i + 1;
    }
    assert events[..i] == events;
  }

  /** One more event, while `main` is still running, adds its own actions. */
  lemma TraceStep(a: seq<Event>, e: Event)
    requires !Stopped(a)
    ensures Stopped(a + [e]) <==> e.Raised?
    ensures Trace(a + [e]) == Trace(a) + EventActions(e)
  {
    assert (a + [e])[..|a|] == a;
    assert (a + [e])[|a|] == e;
    forall k | 0 <= k < |a|
      ensures (a + [e])[k] == a[k]
    {
    }
  }

  /** Once an exception has left `main`, nothing that happens later adds an action. */
  lemma {:induction false} NothingAfterExit(a: seq<Event>, b: seq<Event>)
    requires Stopped(a)
    ensures Trace(a + b) == Trace(a)
    decreases |b|
  {
    if b != [] {
      var init := b[..|b| - 1];
      assert (a + b)[..|a + b| - 1] == a + init;
      NothingAfterExit(a, init);
      var k :| 0 <= k < |a| && a[k].Raised?;
      assert (a + init)[k] == a[k];
    } else {
      assert a + b == a;
    }
  }

  /**
    The trace ends with `Exited` exactly when an exception has left `main`,
    and `Exited` appears nowhere else: nothing follows it.
   */
  lemma {:induction false} ExitEndsTrace(events: seq<Event>)
    ensures Trace(events)[|Trace(events)| - 1] == Exited <==> Stopped(events)
    ensures forall k :: 0 <= k < |Trace(events)| - 1 ==> Trace(events)[k] != Exited
    decreases |events|
  {
    if events != [] {
      var init, last := events[..|events| - 1], events[|events| - 1];
      ExitEndsTrace(init);
      var t0, t := Trace(init), Trace(events);
      if Stopped(init) {
        var k :| 0 <= k < |init| && init[k].Raised?;
        assert events[k] == init[k];
      } else {
        var acts := EventActions(last);
        assert t == t0 + acts;
        if last.Raised? {
          assert events[|events| - 1].Raised?;
        } else {
          assert acts == [] || acts[|acts| - 1] != Exited;
          forall k | 0 <= k < |events|
            ensures !events[k].Raised?
          {
            if k < |init| {
              assert events[k] == init[k];
            }
          }
        }
        forall k | 0 <= k < |t| - 1
          ensures t[k] != Exited
        {
          if k < |t0| {
            assert t[k] == t0[k];
          } else {
            assert t[k] == acts[k - |t0|];
          }
        }
      }
    } else {
      assert !Stopped(events);
    }
  }

  /** How many times a trace launches rtl_433. */
  function Launches(t: seq<Action>): nat
    decreases |t|
  {
    if t == [] then 0 else Launches(t[..|t| - 1]) + (if t[|t| - 1] == Launch then 1 else 0)
  }

  /** How many times the output of rtl_433 ended before any exception left `main`. */
  function Exits(events: seq<Event>): nat
    decreases |events|
  {
    if events == [] then 0
    else
      var init := events[..|events| - 1];
      Exits(init) + (if !Stopped(init) && events[|events| - 1].EndOfOutput? then 1 else 0)
  }

  lemma {:induction false} LaunchesAppend(a: seq<Action>, b: seq<Action>)
    ensures Launches(a + b) == Launches(a) + Launches(b)
    decreases |b|
  {
    if b != [] {
      LaunchesAppend(a, b[..|b| - 1]);
      assert (a + b)[..|a + b| - 1] == a + b[..|b| - 1];
    } else {
      assert a + b == a;
    }
  }

  /** A line never launches rtl_433; the end of its output launches it once. */
  lemma EventLaunches(e: Event)
    ensures Launches(EventActions(e)) == if e.EndOfOutput? then 1 else 0
  {
    var acts := EventActions(e);
    if e.EndOfOutput? {
      assert acts[..1] == [Sleep(CooldownSeconds)];
      assert acts[..1][..0] == [];
      assert Launches(acts[..1]) == 0;
    } else if e.Raised? {
      assert acts[..0] == [];
    } else if acts != [] {
      assert acts == LineActions(e.text, e.decoded, e.brokerAccepts);
      assert |acts| == 1 && acts[0] != Launch;
      assert acts[..0] == [];
    }
  }

  /** rtl_433 is launched once at the start and once more after each end of its output. */
  lemma {:induction false} LaunchCount(events: seq<Event>)
    ensures Launches(Trace(events)) == 1 + Exits(events)
    decreases |events|
  {
    if events != [] {
      var init, last := events[..|events| - 1], events[|events| - 1];
      LaunchCount(init);
      if !Stopped(init) {
        LaunchesAppend(Trace(init), EventActions(last));
        EventLaunches(last);
      }
    } else {
      assert [Launch][..0] == [];
    }
  }

  /** The trace starts with a launch, and every sleep lasts 60 seconds and is followed by a launch. */
  lemma {:induction false} SleepThenLaunch(events: seq<Event>)
    ensures Trace(events)[0] == Launch
    ensures forall k :: 0 <= k < |Trace(events)| && Trace(events)[k].Sleep? ==>
      Trace(events)[k].seconds == CooldownSeconds && k + 1 < |Trace(events)| && Trace(events)[k + 1] == Launch
    decreases |events|
  {
    if events != [] {
      var init, last := events[..|events| - 1], events[|events| - 1];
      SleepThenLaunch(init);
      var t0, acts := Trace(init), EventActions(last);
      var t := Trace(events);
      assert t == t0 + (if Stopped(init) then [] else acts);
      forall k | 0 <= k < |t| && t[k].Sleep?
        ensures t[k].seconds == CooldownSeconds && k + 1 < |t| && t[k + 1] == Launch
      {
        if k < |t0| {
          assert t0[k] == t[k];
          assert t[k + 1] == t0[k + 1];
        } else {
          assert acts[k - |t0|] == t[k];
          assert last.EndOfOutput?;
        }
      }
    }
  }

  /** A line that is published and accepted by the broker produces exactly this message. */
  ghost predicate Delivers(e: Event, topic: string, payload: string)
  {
    e.Line? && e.brokerAccepts && Decide(e.text, e.decoded).Forward?
    && Decide(e.text, e.decoded).topic == topic && payload == e.text
  }

  /** Every message published is the raw text of some accepted line, with that line's topic. */
  lemma {:induction false} PublishedOnlyForwardedLines(events: seq<Event>)
    ensures forall k :: 0 <= k < |Trace(events)| && Trace(events)[k].Published? ==>
      exists j :: 0 <= j < |events| && Delivers(events[j], Trace(events)[k].topic, Trace(events)[k].payload)
    decreases |events|
  {
    if events != [] {
      var init, last := events[..|events| - 1], events[|events| - 1];
      PublishedOnlyForwardedLines(init);
      var t0, acts := Trace(init), EventActions(last);
      var t := Trace(events);
      forall k | 0 <= k < |t| && t[k].Published?
        ensures exists j :: 0 <= j < |events| && Delivers(events[j], t[k].topic, t[k].payload)
      {
        if k < |t0| {
          assert t0[k] == t[k];
          var j :| 0 <= j < |init| && Delivers(init[j], t0[k].topic, t0[k].payload);
          assert events[j] == init[j];
        } else {
          assert acts[k - |t0|] == t[k];
          assert Delivers(events[|events| - 1], t[k].topic, t[k].payload);
        }
      }
    }
  }

  /**
    Every accepted line that decides to publish, and that comes before any
    exception leaves `main`, is published: no error on an earlier line stops
    the loop.
   */
  lemma {:induction false} EveryForwardedLinePublished(events: seq<Event>, j: nat)
    requires j < |events| && events[j].Line? && events[j].brokerAccepts
    requires Decide(events[j].text, events[j].decoded).Forward?
    requires !Stopped(events[..j])
    ensures Published(Decide(events[j].text, events[j].decoded).topic, events[j].text) in Trace(events)
    decreases |events|
  {
    var init, last := events[..|events| - 1], events[|events| - 1];
    if j < |init| {
      assert init[j] == events[j];
      assert init[..j] == events[..j];
      EveryForwardedLinePublished(init, j);
      if Stopped(init) {
        var k :| 0 <= k < |init| && init[k].Raised?;
        assert events[k] == init[k];
      }
      assert Trace(init) <= Trace(events);
    } else {
      assert init == events[..j];
      DecideCases(last.text, last.decoded);
      assert EventActions(last)[0] in Trace(events);
    }
  }
}
