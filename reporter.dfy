/** The reporting loop of the timeout linter (`run` in src/index.ts) without
    its file discovery and file reading: each workflow file comes with the
    outcome of parsing it, and every call into `@actions/core` becomes an
    event appended to a trace. */
module Reporter {
  import opened YamlValue
  import opened Validator
  import Text

  /** One call into `@actions/core`. */
  datatype Event =
    | StartGroup(title: string)
    | Info(text: string)
    | Error(text: string)
    | EndGroup
    | SetOutput(key: string, value: string)
    | SetFailed(text: string)

  /** The kind of an event, for selecting the events of some kinds from a trace. */
  datatype Kind = StartKind | InfoKind | ErrorKind | EndKind | OutputKind | FailedKind

  function KindOf(e: Event): Kind
  {
    match e
    case StartGroup(_) => StartKind
    case Info(_) => InfoKind
    case Error(_) => ErrorKind
    case EndGroup => EndKind
    case SetOutput(_, _) => OutputKind
    case SetFailed(_) => FailedKind
  }

  const Marker := ".github/workflows/"
  const JobsKey := "jobs"
  const UnparseableText := "Unable to parse YAML."
  const NoJobsText := "Property \"jobs\" does not exist."
  const PassText := "Pass"
  const OutputKey := "message"
  /** The message of the TypeError that `Object.entries(null)` throws in
      Node's V8 engine. */
  const EntriesOfNullText := "Cannot convert undefined or null to object"
  const NotDefinedTail := "] Property \"timeout-minutes\" does not exist."
  const NotANumberTail := "] Value of the property \"timeout-minutes\" is not a number."

  /** The name a workflow file is reported under: the path from the last
      occurrence of `.github/workflows/` on, or the whole path without one. */
  function DisplayName(path: string): (r: string)
    ensures |r| <= |path|
  {
    Text.SubstringFrom(path, Text.LastIndexOf(path, Marker))
  }

  /** The error message for one violation in the file shown as `filename`. */
  function Message(filename: string, r: JobResult): string
  {
    var head := "[" + filename + " :: " + r.jobId;
    if r.reason == NotDefined then head + NotDefinedTail else head + NotANumberTail
  }

  /** Recovers the reason from a message by its closing text. */
  function ReasonOfMessage(m: string): Reason
  {
    if |NotDefinedTail| <= |m| && m[|m| - |NotDefinedTail|..] == NotDefinedTail then NotDefined
    else NotANumber
  }

  /** The messages of all violations of one file, in order. */
  function Messages(filename: string, rs: seq<JobResult>): (ms: seq<string>)
    ensures |ms| == |rs|
    ensures forall k :: 0 <= k < |rs| ==> ms[k] == Message(filename, rs[k])
  {
    seq(|rs|, k requires 0 <= k < |rs| => Message(filename, rs[k]))
  }

  /** The messages of a longer prefix add the next violation's message. */
  lemma MessagesSnoc(filename: string, rs: seq<JobResult>, j: nat)
    requires j < |rs|
    ensures Messages(filename, rs[..j + 1]) == Messages(filename, rs[..j]) + [Message(filename, rs[j])]
  {
    assert forall k :: 0 <= k < j ==> rs[..j + 1][k] == rs[..j][k];
  }

  /** One error event per message. */
  function ErrorEvents(ms: seq<string>): (es: seq<Event>)
    ensures |es| == |ms|
    ensures forall k :: 0 <= k < |ms| ==> es[k] == Error(ms[k])
  {
    if ms == [] then [] else ErrorEvents(ms[..|ms| - 1]) + [Error(ms[|ms| - 1])]
  }

  /** The failure summary: the plural is used for every positive count. */
  function Summary(n: nat): string
  {
    Text.NatToString(n) + " violation" + (if n > 0 then "s" else "") + " found."
  }

  /** How one file is handled, decided before anything is reported. */
  datatype FileOutcome =
    | Unparseable
    | NoJobs
    | Throws
    | Clean
    | Found(results: seq<JobResult>)

  /** Classifies a file by its parse outcome (None when reading or parsing
      failed; a YAML null, as an empty document gives, takes the same path). */
  function Classify(doc: Option<Value>): (o: FileOutcome)
    ensures o == Unparseable <==> doc.None? || doc.value.Null?
    ensures o == NoJobs <==> doc.Some? && !doc.value.Null? && !IsObject(GetField(doc.value, JobsKey))
    ensures o == Throws <==> doc.Some? && doc.value.Map? && GetField(doc.value, JobsKey) == Present(Null)
    ensures o.Found? ==> o.results != []
  {
    if doc.None? || doc.value.Null? then Unparseable
    else
      var jobs := GetField(doc.value, JobsKey);
      if !IsObject(jobs) then NoJobs
      else
        match Entries(jobs.value)
        case None => Throws
        case Some(entries) =>
          var v := Violations(entries);
          if v == [] then Clean else Found(v)
  }

  /** A file whose `jobs` is a non-null object passes exactly when `validate`
      finds nothing in its entries, and otherwise reports exactly what
      `validate` finds. */
  lemma ClassifyValidates(doc: Option<Value>)
    ensures var o := Classify(doc);
      (o == Clean || o.Found?) ==>
        doc.Some? && IsObject(GetField(doc.value, JobsKey)) &&
        Entries(GetField(doc.value, JobsKey).value).Some? &&
        (o == Clean <==> Violations(Entries(GetField(doc.value, JobsKey).value).value) == []) &&
        (o.Found? ==> o.results == Violations(Entries(GetField(doc.value, JobsKey).value).value))
  {
  }

  /** What the loop has produced: the trace, the accumulated messages, and
      whether an exception cut the run short. */
  datatype RunState = RunState(trace: seq<Event>, messages: seq<string>, aborted: bool)

  /** The events and messages of one file shown as `filename`, once it is
      classified: its group is opened, then holds one informational line or
      one error per violation, then is closed; when `Object.entries` throws,
      the group is left open. */
  function Step(filename: string, o: FileOutcome): (r: RunState)
    ensures r.aborted <==> o.Throws?
    ensures o.Found? ==> r.messages == Messages(filename, o.results)
    ensures !o.Found? ==> r.messages == []
  {
    var open := [StartGroup("File: " + filename)];
    match o
    case Unparseable => RunState(open + [Info(UnparseableText)] + [EndGroup], [], false)
    case NoJobs => RunState(open + [Info(NoJobsText)] + [EndGroup], [], false)
    case Throws => RunState(open, [], true)
    case Clean => RunState(open + [Info(PassText)] + [EndGroup], [], false)
    case Found(results) =>
      var ms := Messages(filename, results);
      RunState(open + ErrorEvents(ms) + [EndGroup], ms, false)
  }

  /** The informational line a classified file logs: one for an unparseable
      file, a file without jobs and a passing file; none otherwise. */
  function InfoLines(o: FileOutcome): seq<Event>
  {
    match o
    case Unparseable => [Info(UnparseableText)]
    case NoJobs => [Info(NoJobsText)]
    case Clean => [Info(PassText)]
    case Throws => []
    case Found(_) => []
  }

  /** One file of the loop: it is reported under its display name, as its
      parse outcome classifies it. */
  function FileStep(path: string, doc: Option<Value>): (r: RunState)
    ensures r.aborted <==> Classify(doc).Throws?
    ensures r.aborted ==> r.messages == []
  {
    Step(DisplayName(path), Classify(doc))
  }

  /** The loop over the files; once a file throws, nothing more happens. */
  function Process(files: seq<(string, Option<Value>)>): RunState
  {
    if files == [] then RunState([], [], false)
    else
      var s := Process(files[..|files| - 1]);
      if s.aborted then s
      else
        var f := FileStep(files[|files| - 1].0, files[|files| - 1].1);
        RunState(s.trace + f.trace, s.messages + f.messages, f.aborted)
  }

  /** What `run` does after the loop: with messages accumulated, it publishes
      them newline-joined as the `message` output and fails the run with a
      count of them; with none, nothing. */
  function FinalEvents(messages: seq<string>): (r: seq<Event>)
    ensures (r == []) == (messages == [])
    ensures forall e :: e in r ==> e.SetOutput? || e.SetFailed?
  {
    if messages == [] then []
    else [SetOutput(OutputKey, Text.Join(messages, "\n"))] + [SetFailed(Summary(|messages|))]
  }

  /** The whole run: the loop, then either the failure the `catch` reports
      for an exception, or the final events. */
  function Outcome(files: seq<(string, Option<Value>)>): (r: RunState)
    ensures r.messages == Process(files).messages && r.aborted == Process(files).aborted
    ensures |r.trace| >= |Process(files).trace| && r.trace[..|Process(files).trace|] == Process(files).trace
    ensures r.aborted ==> |r.trace| > 0 && r.trace[|r.trace| - 1] == SetFailed(EntriesOfNullText)
  {
    var s := Process(files);
    if s.aborted then RunState(s.trace + [SetFailed(EntriesOfNullText)], s.messages, true)
    else RunState(s.trace + FinalEvents(s.messages), s.messages, false)
  }

  /** The body of `run`'s loop for one file: opens the file's group, handles
      the parse outcome, and closes the group again, except when
      `Object.entries` throws (`thrown`), which leaves the group open. */
  method ReportFile(path: string, yamlDoc: Option<Value>) returns (events: seq<Event>, messages: seq<string>, thrown: bool)
    ensures RunState(events, messages, thrown) == FileStep(path, yamlDoc)
  {
    var filename := DisplayName(path);
    events := [StartGroup("File: " + filename)];
    messages := [];
    thrown := false;

    if yamlDoc.None? || yamlDoc.value.Null? {
      events := events + [Info(UnparseableText)];
      events := events + [EndGroup];
      return;
    }

    var jobs := GetField(yamlDoc.value, JobsKey);
    if !IsObject(jobs) {
      events := events + [Info(NoJobsText)];
      events := events + [EndGroup];
      return;
    }

    var entries := Entries(jobs.value);
    if entries.None? {
      thrown := true;
      return;
    }

    var jobResults := Validate(entries.value);
    if jobResults.None? {
      events := events + [Info(PassText)];
      events := events + [EndGroup];
      return;
    }

    var errors;
    errors, messages := ReportViolations(filename, jobResults.value);
    events := events + errors;
    events := events + [EndGroup];
  }

  /** `run` over already-discovered, already-parsed files. An exception from
      a file ends the loop, and the `catch` fails the run with its message. */
  method Run(files: seq<(string, Option<Value>)>) returns (trace: seq<Event>, resultMessage: seq<string>)
    ensures trace == Outcome(files).trace
    ensures resultMessage == Outcome(files).messages
  {
    trace := [];
    resultMessage := [];
    var i := 0;
    while i < |files|
      invariant 0 <= i <= |files|
      invariant Process(files[..i]) == RunState(trace, resultMessage, false)
    {
      assert files[..i + 1][..i] == files[..i];
      var events, messages, thrown := ReportFile(files[i].0, files[i].1);
      trace := trace + events;
      resultMessage := resultMessage + messages;
      if thrown {
        AbortIsFinal(files, i + 1);
        trace := trace + [SetFailed(EntriesOfNullText)];
        return;
      }
      i := i + 1;
    }
    assert files[..|files|] == files;

    var final := Publish(resultMessage);
    trace := trace + final;
  }

  /** The calls after the loop: with messages accumulated, the newline-joined
      `message` output and then the failure counting them; otherwise none. */
  method Publish(resultMessage: seq<string>) returns (events: seq<Event>)
    ensures events == FinalEvents(resultMessage)
  {
    events := [];
    if |resultMessage| != 0 {
      events := events + [SetOutput(OutputKey, Text.Join(resultMessage, "\n"))];
      events := events + [SetFailed(Summary(|resultMessage|))];
    }
  }

  /** The inner loop of `run`: one error event and one accumulated message
      per violation, in the validator's order. */
  method ReportViolations(filename: string, results: seq<JobResult>) returns (errors: seq<Event>, messages: seq<string>)
    ensures messages == Messages(filename, results)
    ensures errors == ErrorEvents(messages)
  {
    errors, messages := [], [];
    for j := 0 to |results|
      invariant messages == Messages(filename, results[..j])
      invariant errors == ErrorEvents(messages)
    {
      var message := Message(filename, results[j]);
      MessagesSnoc(filename, results, j);
      assert (messages + [message])[..|messages|] == messages;
      errors := errors + [Error(message)];
      messages := messages + [message];
    }
    assert results[..|results|] == results;
  }

  /** After a file throws, the remaining files change nothing. */
  lemma {:induction false} AbortIsFinal(files: seq<(string, Option<Value>)>, k: nat)
    requires k <= |files|
    requires Process(files[..k]).aborted
    ensures Process(files) == Process(files[..k])
    decreases |files| - k
  {
    if k < |files| {
      var next := files[..k + 1];
      assert next[..k] == files[..k];
      AbortIsFinal(files, k + 1);
    } else {
      assert files[..k] == files;
    }
  }

  // ---------------------------------------------------------------------------
  // Reading a trace

  /** The events of `trace` whose kind is in `ks`, in order. */
  function Only(trace: seq<Event>, ks: set<Kind>): seq<Event>
  {
    if trace == [] then []
    else Only(trace[..|trace| - 1], ks) + (if KindOf(trace[|trace| - 1]) in ks then [trace[|trace| - 1]] else [])
  }

  /** `Only` is a filter: it keeps exactly the events of the given kinds. */
  lemma {:induction false} OnlyFilters(trace: seq<Event>, ks: set<Kind>)
    ensures forall e :: e in Only(trace, ks) ==> e in trace && KindOf(e) in ks
    ensures forall k :: 0 <= k < |trace| && KindOf(trace[k]) in ks ==> trace[k] in Only(trace, ks)
  {
    if trace != [] {
      var init := trace[..|trace| - 1];
      OnlyFilters(init, ks);
      assert forall k :: 0 <= k < |init| ==> init[k] == trace[k];
    }
  }

  lemma {:induction false} OnlyConcat(a: seq<Event>, b: seq<Event>, ks: set<Kind>)
    ensures Only(a + b, ks) == Only(a, ks) + Only(b, ks)
    decreases |b|
  {
    if b != [] {
      var init := b[..|b| - 1];
      assert (a + b)[..|a + b| - 1] == a + init;
      OnlyConcat(a, init, ks);
    } else {
      assert a + b == a;
    }
  }

  lemma {:induction false} OnlyErrors(ms: seq<string>, ks: set<Kind>)
    ensures Only(ErrorEvents(ms), ks) == if ErrorKind in ks then ErrorEvents(ms) else []
  {
    if ms != [] {
      var init := ms[..|ms| - 1];
      assert ErrorEvents(ms)[..|ms| - 1] == ErrorEvents(init);
      OnlyErrors(init, ks);
    }
  }

  /** The effect of one event on whether a group is open: None when a group
      is opened inside another, or closed when none is open. */
  function GroupStep(open: bool, e: Event): Option<bool>
  {
    match e
    case StartGroup(_) => if open then None else Some(true)
    case EndGroup => if open then Some(false) else None
    case _ => Some(open)
  }

  /** Replays the group events of `trace` from `open`: Some(o) when every
      group is opened outside any other and closed while open, with `o`
      telling whether one is left open at the end. */
  function Replay(open: bool, trace: seq<Event>): Option<bool>
  {
    if trace == [] then Some(open)
    else
      match Replay(open, trace[..|trace| - 1])
      case None => None
      case Some(o) => GroupStep(o, trace[|trace| - 1])
  }

  lemma {:induction false} ReplayConcat(open: bool, a: seq<Event>, b: seq<Event>)
    ensures Replay(open, a + b) == match Replay(open, a) case None => None case Some(o) => Replay(o, b)
    decreases |b|
  {
    if b != [] {
      var init := b[..|b| - 1];
      assert (a + b)[..|a + b| - 1] == a + init;
      ReplayConcat(open, a, init);
    } else {
      assert a + b == a;
    }
  }

  lemma {:induction false} ReplayErrors(ms: seq<string>)
    ensures Replay(true, ErrorEvents(ms)) == Some(true)
  {
    if ms != [] {
      var init := ms[..|ms| - 1];
      assert ErrorEvents(ms)[..|ms| - 1] == ErrorEvents(init);
      ReplayErrors(init);
    }
  }

  /** The group titles a run over `files` opens when none of them throws. */
  function Opened(files: seq<(string, Option<Value>)>): seq<Event>
  {
    if files == [] then []
    else Opened(files[..|files| - 1]) + [StartGroup("File: " + DisplayName(files[|files| - 1].0))]
  }

  /** The informational lines of the files, in order. */
  function Infos(files: seq<(string, Option<Value>)>): seq<Event>
  {
    if files == [] then []
    else Infos(files[..|files| - 1]) + InfoLines(Classify(files[|files| - 1].1))
  }

  /** Some file of `files` makes `Object.entries` throw. */
  predicate SomeFileThrows(files: seq<(string, Option<Value>)>)
  {
    exists k :: 0 <= k < |files| && Classify(files[k].1).Throws?
  }

  // ---------------------------------------------------------------------------
  // Properties of the model

  /** The display name is the suffix of the path that starts at the last
      `.github/workflows/`: it begins with the marker and holds no later
      occurrence of it. Without the marker, `substring(-1)` keeps the whole path. */
  lemma DisplayNameSpec(path: string)
    ensures !Text.Contains(path, Marker) ==> DisplayName(path) == path
    ensures Text.Contains(path, Marker) ==>
      var r := DisplayName(path);
      |r| >= |Marker| && r[..|Marker|] == Marker &&
      (exists k :: 0 <= k <= |path| && r == path[k..]) &&
      forall j :: 0 < j ==> !Text.OccursAt(r, Marker, j)
  {
    var k := Text.LastIndexOf(path, Marker);
    if k != -1 {
      var r := path[k..];
      assert DisplayName(path) == r;
      Text.OccursInSuffix(path, Marker, k, 0);
      forall j | 0 < j ensures !Text.OccursAt(r, Marker, j) {
        Text.OccursInSuffix(path, Marker, k, j);
      }
    }
  }

  /** A message opens with the file and the job id and closes with the
      fixed text of its reason. */
  lemma MessageParts(filename: string, r: JobResult)
    ensures var m, head := Message(filename, r), "[" + filename + " :: " + r.jobId;
      && |m| > |head| && m[..|head|] == head
      && (r.reason == NotDefined ==>
            |m| == |head| + |NotDefinedTail| && m[|m| - |NotDefinedTail|..] == NotDefinedTail)
      && (r.reason == NotANumber ==>
            |m| == |head| + |NotANumberTail| && m[|m| - |NotANumberTail|..] == NotANumberTail)
  {
    var m, head := Message(filename, r), "[" + filename + " :: " + r.jobId;
    assert m[..|head|] == head;
  }

  /** The message tells its reason: reading the reason back from the text
      gives the violation's reason. */
  lemma MessageRoundTrip(filename: string, r: JobResult)
    ensures ReasonOfMessage(Message(filename, r)) == r.reason
  {
    var head := "[" + filename + " :: " + r.jobId;
    var m := Message(filename, r);
    if r.reason == NotDefined {
      assert m[|m| - |NotDefinedTail|..] == NotDefinedTail;
    } else {
      assert m[|m| - |NotDefinedTail|..] == NotANumberTail[|NotANumberTail| - |NotDefinedTail|..];
    }
  }

  /** Filtering a group distributes over its opening, its body and its closing. */
  lemma BlockOnly(title: string, body: seq<Event>, ks: set<Kind>)
    ensures Only([StartGroup(title)] + body + [EndGroup], ks) ==
      Only([StartGroup(title)], ks) + Only(body, ks) + Only([EndGroup], ks)
  {
    var open := [StartGroup(title)];
    OnlyConcat(open + body, [EndGroup], ks);
    OnlyConcat(open, body, ks);
  }

  /** A group holding `body`, which opens no group and sets nothing itself,
      shows one group start and the body's errors. */
  lemma BlockShape(title: string, body: seq<Event>)
    requires Only(body, {StartKind}) == [] && Only(body, {OutputKind, FailedKind}) == []
    ensures var t := [StartGroup(title)] + body + [EndGroup];
      && Only(t, {StartKind}) == [StartGroup(title)]
      && Only(t, {ErrorKind}) == Only(body, {ErrorKind})
      && Only(t, {OutputKind, FailedKind}) == []
  {
    BlockOnly(title, body, {StartKind});
    BlockOnly(title, body, {ErrorKind});
    BlockOnly(title, body, {OutputKind, FailedKind});
  }

  /** A group around a body that leaves groups alone is balanced. */
  lemma BlockBalanced(title: string, body: seq<Event>)
    requires Replay(true, body) == Some(true)
    ensures Replay(false, [StartGroup(title)] + body + [EndGroup]) == Some(false)
  {
    var open := [StartGroup(title)];
    ReplayConcat(false, open + body, [EndGroup]);
    ReplayConcat(false, open, body);
  }

  /** Each file opens exactly one group titled after its display name and
      closes it on every path except an exception, and its errors are
      exactly its accumulated messages. */
  lemma StepShape(filename: string, o: FileOutcome)
    ensures var f := Step(filename, o);
      && Only(f.trace, {StartKind}) == [StartGroup("File: " + filename)]
      && Replay(false, f.trace) == Some(f.aborted)
      && Only(f.trace, {ErrorKind}) == ErrorEvents(f.messages)
      && Only(f.trace, {OutputKind, FailedKind}) == []
      && Only(f.trace, {InfoKind}) == InfoLines(o)
      && |f.trace| > 0 && f.trace[0] == StartGroup("File: " + filename)
      && (!f.aborted ==> f.trace[|f.trace| - 1] == EndGroup)
  {
    StepBounds(filename, o);
    match o
    case Found(results) => ErrorsGroupShape("File: " + filename, Messages(filename, results));
    case Unparseable => InfoGroupShape("File: " + filename, UnparseableText);
    case NoJobs => InfoGroupShape("File: " + filename, NoJobsText);
    case Clean => InfoGroupShape("File: " + filename, PassText);
    case Throws =>
  }

  /** A file's trace starts with its group and, unless it throws, ends by
      closing it. */
  lemma StepBounds(filename: string, o: FileOutcome)
    ensures var f := Step(filename, o);
      && |f.trace| > 0 && f.trace[0] == StartGroup("File: " + filename)
      && (!f.aborted ==> f.trace[|f.trace| - 1] == EndGroup)
  {
  }

  /** A group holding one informational line. */
  lemma InfoGroupShape(title: string, text: string)
    ensures var t := [StartGroup(title)] + [Info(text)] + [EndGroup];
      && Only(t, {StartKind}) == [StartGroup(title)]
      && Replay(false, t) == Some(false)
      && Only(t, {ErrorKind}) == []
      && Only(t, {OutputKind, FailedKind}) == []
      && Only(t, {InfoKind}) == [Info(text)]
  {
    BlockShape(title, [Info(text)]);
    BlockOnly(title, [Info(text)], {InfoKind});
    BlockBalanced(title, [Info(text)]);
  }

  /** A group holding one error per message. */
  lemma ErrorsGroupKinds(title: string, ms: seq<string>)
    ensures var t := [StartGroup(title)] + ErrorEvents(ms) + [EndGroup];
      && Only(t, {StartKind}) == [StartGroup(title)]
      && Only(t, {ErrorKind}) == ErrorEvents(ms)
      && Only(t, {OutputKind, FailedKind}) == []
  {
    OnlyErrors(ms, {StartKind});
    OnlyErrors(ms, {ErrorKind});
    OnlyErrors(ms, {OutputKind, FailedKind});
    BlockShape(title, ErrorEvents(ms));
  }
  lemma ErrorsGroupInfos(title: string, ms: seq<string>)
    ensures Only([StartGroup(title)] + ErrorEvents(ms) + [EndGroup], {InfoKind}) == []
  {
    OnlyErrors(ms, {InfoKind});
    BlockOnly(title, ErrorEvents(ms), {InfoKind});
  }
  lemma ErrorsGroupShape(title: string, ms: seq<string>)
    ensures var t := [StartGroup(title)] + ErrorEvents(ms) + [EndGroup];
      && Only(t, {StartKind}) == [StartGroup(title)]
      && Replay(false, t) == Some(false)
      && Only(t, {ErrorKind}) == ErrorEvents(ms)
      && Only(t, {OutputKind, FailedKind}) == []
      && Only(t, {InfoKind}) == []
  {
    ErrorsGroupKinds(title, ms);
    ErrorsGroupInfos(title, ms);
    ReplayErrors(ms);
    BlockBalanced(title, ErrorEvents(ms));
  }


  /** The same for a file, under its display name. */
  lemma FileStepShape(path: string, doc: Option<Value>)
    ensures var f := FileStep(path, doc);
      && Only(f.trace, {StartKind}) == [StartGroup("File: " + DisplayName(path))]
      && Replay(false, f.trace) == Some(f.aborted)
      && Only(f.trace, {ErrorKind}) == ErrorEvents(f.messages)
      && Only(f.trace, {OutputKind, FailedKind}) == []
      && Only(f.trace, {InfoKind}) == InfoLines(Classify(doc))
      && |f.trace| > 0 && f.trace[0] == StartGroup("File: " + DisplayName(path))
      && (!f.aborted ==> f.trace[|f.trace| - 1] == EndGroup)
  {
    StepShape(DisplayName(path), Classify(doc));
  }

  /** Only a file with violations adds messages, one per violation; only a
      file whose `jobs` is null cuts the run short. */
  lemma FileStepMessages(path: string, doc: Option<Value>)
    ensures var f := FileStep(path, doc);
      && (f.aborted <==> Classify(doc).Throws?)
      && (Classify(doc).Found? ==>
            f.messages == Messages(DisplayName(path), Classify(doc).results) &&
            |f.messages| == |Classify(doc).results|)
      && (!Classify(doc).Found? ==> f.messages == [])
      && (doc.Some? && IsObject(GetField(doc.value, JobsKey)) && Entries(GetField(doc.value, JobsKey).value).Some? ==>
            f.messages == Messages(DisplayName(path), Violations(Entries(GetField(doc.value, JobsKey).value).value)))
  {
  }

  /** The loop aborts exactly when some file throws. */
  lemma {:induction false} ProcessAborts(files: seq<(string, Option<Value>)>)
    ensures Process(files).aborted <==> SomeFileThrows(files)
  {
    if files != [] {
      ProcessAborts(files[..|files| - 1]);
      SomeFileThrowsLast(files);
    }
  }

  /** Some file throws iff one before the last does or the last does. */
  lemma SomeFileThrowsLast(files: seq<(string, Option<Value>)>)
    requires files != []
    ensures SomeFileThrows(files) <==>
      SomeFileThrows(files[..|files| - 1]) || Classify(files[|files| - 1].1).Throws?
  {
    var init := files[..|files| - 1];
    assert forall k :: 0 <= k < |init| ==> init[k] == files[k];
    if SomeFileThrows(files) {
      var k :| 0 <= k < |files| && Classify(files[k].1).Throws?;
      if k < |init| {
        assert Classify(init[k].1).Throws?;
      }
    }
  }


  /** The loop over `files`: until a file throws, groups never nest and are
      all closed, one per file in order; the error events are exactly the
      accumulated messages; and the loop itself neither sets the output nor
      fails the run. */
  lemma {:induction false} ProcessShape(files: seq<(string, Option<Value>)>)
    ensures var s := Process(files);
      && Replay(false, s.trace) == Some(s.aborted)
      && Only(s.trace, {ErrorKind}) == ErrorEvents(s.messages)
      && Only(s.trace, {OutputKind, FailedKind}) == []
      && (!s.aborted ==> Only(s.trace, {StartKind}) == Opened(files))
      && (!s.aborted ==> Only(s.trace, {InfoKind}) == Infos(files))
  {
    if files != [] {
      var init := files[..|files| - 1];
      var last := files[|files| - 1];
      ProcessShape(init);
      var p := Process(init);
      if !p.aborted {
        var f := FileStep(last.0, last.1);
        FileStepShape(last.0, last.1);
        OnlyConcat(p.trace, f.trace, {StartKind});
        OnlyConcat(p.trace, f.trace, {InfoKind});
        OnlyConcat(p.trace, f.trace, {ErrorKind});
        OnlyConcat(p.trace, f.trace, {OutputKind, FailedKind});
        ReplayConcat(false, p.trace, f.trace);
        ErrorEventsConcat(p.messages, f.messages);
      }
    }
  }

  lemma {:induction false} ErrorEventsConcat(a: seq<string>, b: seq<string>)
    ensures ErrorEvents(a + b) == ErrorEvents(a) + ErrorEvents(b)
  {
  }

  /** The final events are an output and a failure, outside any group. */
  lemma FinalEventsShape(messages: seq<string>)
    ensures var t := FinalEvents(messages);
      && Only(t, {StartKind}) == []
      && Only(t, {InfoKind}) == []
      && Only(t, {ErrorKind}) == []
      && Only(t, {OutputKind, FailedKind}) == t
      && Replay(false, t) == Some(false)
  {
    if messages != [] {
      var a, b := SetOutput(OutputKey, Text.Join(messages, "\n")), SetFailed(Summary(|messages|));
      OnlyConcat([a], [b], {StartKind});
      OnlyConcat([a], [b], {InfoKind});
      OnlyConcat([a], [b], {ErrorKind});
      OnlyConcat([a], [b], {OutputKind, FailedKind});
      ReplayConcat(false, [a], [b]);
    }
  }

  /** What a whole run reports. Every accumulated message is emitted once as
      an error, in order, and no other error is. Without an exception, groups
      never nest and all close, one per file in order, and the output and the
      failure are set exactly when some violation was found, the failure
      summary counting the messages. After an exception, the run fails with
      the exception's message and sets no output. */
  lemma RunReport(files: seq<(string, Option<Value>)>)
    ensures Outcome(files).aborted <==> SomeFileThrows(files)
    ensures Only(Outcome(files).trace, {ErrorKind}) == ErrorEvents(Outcome(files).messages)
    ensures !Outcome(files).aborted ==>
      Replay(false, Outcome(files).trace) == Some(false) &&
      Only(Outcome(files).trace, {StartKind}) == Opened(files) &&
      Only(Outcome(files).trace, {InfoKind}) == Infos(files) &&
      Only(Outcome(files).trace, {OutputKind, FailedKind}) == FinalEvents(Outcome(files).messages)
    ensures Outcome(files).aborted ==>
      Only(Outcome(files).trace, {OutputKind, FailedKind}) == [SetFailed(EntriesOfNullText)]
  {
    ProcessAborts(files);
    ProcessShape(files);
    if Process(files).aborted {
      RunAborted(Process(files));
    } else {
      RunCompleted(Process(files));
    }
  }

  /** After an exception, the `catch`'s failure is the only call added to the loop's trace. */
  lemma RunAborted(s: RunState)
    requires Only(s.trace, {ErrorKind}) == ErrorEvents(s.messages)
    requires Only(s.trace, {OutputKind, FailedKind}) == []
    ensures var t := s.trace + [SetFailed(EntriesOfNullText)];
      && Only(t, {ErrorKind}) == ErrorEvents(s.messages)
      && Only(t, {OutputKind, FailedKind}) == [SetFailed(EntriesOfNullText)]
  {
    var tail := [SetFailed(EntriesOfNullText)];
    OnlyConcat(s.trace, tail, {ErrorKind});
    OnlyConcat(s.trace, tail, {OutputKind, FailedKind});
  }

  /** Without an exception, the final events keep the groups balanced and add
      no error and no group. */
  lemma RunCompleted(s: RunState)
    requires Only(s.trace, {ErrorKind}) == ErrorEvents(s.messages)
    requires Only(s.trace, {OutputKind, FailedKind}) == []
    requires Replay(false, s.trace) == Some(false)
    ensures var t := s.trace + FinalEvents(s.messages);
      && Only(t, {ErrorKind}) == ErrorEvents(s.messages)
      && Only(t, {OutputKind, FailedKind}) == FinalEvents(s.messages)
      && Only(t, {StartKind}) == Only(s.trace, {StartKind})
      && Only(t, {InfoKind}) == Only(s.trace, {InfoKind})
      && Replay(false, t) == Some(false)
  {
    var tail := FinalEvents(s.messages);
    FinalEventsShape(s.messages);
    OnlyConcat(s.trace, tail, {InfoKind});
    OnlyConcat(s.trace, tail, {ErrorKind});
    OnlyConcat(s.trace, tail, {OutputKind, FailedKind});
    OnlyConcat(s.trace, tail, {StartKind});
    ReplayConcat(false, s.trace, tail);
  }

  /** The output and the failure come as a pair, exactly when the
      accumulator is not empty, and the summary has the plural form. */
  lemma FinalOutcome(messages: seq<string>)
    ensures FinalEvents(messages) == [] <==> messages == []
    ensures messages != [] ==>
      FinalEvents(messages) ==
        [SetOutput(OutputKey, Text.Join(messages, "\n")),
         SetFailed(Text.NatToString(|messages|) + " violations found.")]
  {
    if messages != [] {
      SummaryPlural(|messages|);
    }
  }

  /** The first file that throws ends the run: the files before it are
      reported in full, its own group is opened and never closed, the run
      fails with the exception's message, and no output is set even when
      earlier files found violations. */
  lemma AbortStops(files: seq<(string, Option<Value>)>, k: nat)
    requires k < |files|
    requires Classify(files[k].1).Throws?
    requires forall j :: 0 <= j < k ==> !Classify(files[j].1).Throws?
    ensures Outcome(files) ==
      RunState(Process(files[..k]).trace + [StartGroup("File: " + DisplayName(files[k].0)), SetFailed(EntriesOfNullText)],
               Process(files[..k]).messages, true)
  {
    var prefix, next := files[..k], files[..k + 1];
    NoThrowBefore(files, k);
    assert next[..k] == prefix && next[k] == files[k];
    var s := Process(prefix);
    assert Process(next) == RunState(s.trace + FileStep(files[k].0, files[k].1).trace, s.messages, true);
    AbortIsFinal(files, k + 1);
  }

  /** Without a throwing file among the first `k`, the loop is not cut short there. */
  lemma NoThrowBefore(files: seq<(string, Option<Value>)>, k: nat)
    requires k <= |files|
    requires forall j :: 0 <= j < k ==> !Classify(files[j].1).Throws?
    ensures !Process(files[..k]).aborted
  {
    var prefix := files[..k];
    ProcessAborts(prefix);
    assert forall j :: 0 <= j < |prefix| ==> prefix[j] == files[j];
  }


  /** The accumulator grows only in the violation branch, by one message per
      violation, appended after the earlier files' messages. */
  lemma AccumulatorGrowth(files: seq<(string, Option<Value>)>, path: string, doc: Option<Value>)
    requires !Process(files).aborted
    ensures var grown := Process(files + [(path, doc)]).messages;
      && (Classify(doc).Found? ==>
            grown == Process(files).messages + Messages(DisplayName(path), Classify(doc).results) &&
            |grown| == |Process(files).messages| + |Classify(doc).results|)
      && (!Classify(doc).Found? ==> grown == Process(files).messages)
  {
  }

  /** With no newline in any message, the `message` output lists the
      messages one per line. */
  lemma OutputLines(files: seq<(string, Option<Value>)>)
    requires forall k :: 0 <= k < |Outcome(files).messages| ==> '\n' !in Outcome(files).messages[k]
    ensures Outcome(files).messages != [] ==> Text.Split(Text.Join(Outcome(files).messages, "\n"), '\n') == Outcome(files).messages
  {
    if Outcome(files).messages != [] {
      Text.SplitJoin(Outcome(files).messages, '\n');
    }
  }

  /** The summary takes the plural for every positive count, one included. */
  lemma SummaryPlural(n: nat)
    requires n > 0
    ensures Summary(n) == Text.NatToString(n) + " violations found."
  {
  }

  /** One violation still takes the plural. */
  lemma SummaryOfOne()
    ensures Summary(1) == "1 violations found."
  {
  }

  /** A file `pass` whose job `build` delegates through `uses`, then a file
      `fail` whose job `build` is empty. */
  /** A workflow whose only job delegates to a reusable workflow. */
  const DelegatingDoc: Value := Map([("jobs", Map([("build", Map([(UsesKey, Str("x/y"))]))]))])

  /** A workflow whose only job sets no timeout. */
  const TimeoutlessDoc: Value := Map([("jobs", Map([("build", Map([]))]))])

  function ScenarioFiles(pass: string, fail: string): seq<(string, Option<Value>)>
  {
    [(pass, Some(DelegatingDoc)), (fail, Some(TimeoutlessDoc))]
  }

  /** A job that delegates with `uses` passes, so its workflow is clean. */
  lemma ScenarioDelegating()
    ensures Classify(Some(DelegatingDoc)) == Clean
  {
    var delegated := Map([(UsesKey, Str("x/y"))]);
    assert GetField(delegated, UsesKey) == Present(Str("x/y"));
    var passing := [("build", delegated)];
    assert passing[..0] == [];
    assert Violations(passing) == [];
    assert GetField(DelegatingDoc, "jobs") == Present(Map(passing));
  }

  /** A job without `timeout-minutes` is reported as not defined. */
  lemma ScenarioTimeoutless()
    ensures Classify(Some(TimeoutlessDoc)) == Found([JobResult("build", Absent, NotDefined)])
  {
    var failing := [("build", Map([]))];
    assert failing[..0] == [];
    assert Violations(failing) == [JobResult("build", Absent, NotDefined)];
    assert GetField(TimeoutlessDoc, "jobs") == Present(Map(failing));
  }

  lemma ScenarioClassify(pass: string, fail: string)
    ensures Classify(ScenarioFiles(pass, fail)[0].1) == Clean
    ensures Classify(ScenarioFiles(pass, fail)[1].1) == Found([JobResult("build", Absent, NotDefined)])
  {
    ScenarioDelegating();
    ScenarioTimeoutless();
  }

  /** The loop over the two scenario files: nothing is cut short, and the
      second file contributes its job's 'not defined' message. */
  lemma ScenarioLoop(pass: string, fail: string)
    ensures Process(ScenarioFiles(pass, fail)) ==
      RunState(FileStep(pass, ScenarioFiles(pass, fail)[0].1).trace + FileStep(fail, ScenarioFiles(pass, fail)[1].1).trace,
               [Message(DisplayName(fail), JobResult("build", Absent, NotDefined))], false)
  {
    var files := ScenarioFiles(pass, fail);
    var violation := JobResult("build", Absent, NotDefined);
    ScenarioClassify(pass, fail);
    assert files[..1][..0] == [];
    assert files[..2] == files;
    assert Messages(DisplayName(fail), [violation]) == [Message(DisplayName(fail), violation)];
    assert Process(files[..1]) == RunState(FileStep(pass, files[0].1).trace, [], false);
  }

  /** Two files, the first delegating its only job and the second declaring
      no timeout for its job: the run fails with one message and the summary
      "1 violations found.". */
  lemma OneViolationScenario(pass: string, fail: string)
    ensures Outcome(ScenarioFiles(pass, fail)).messages == ["[" + DisplayName(fail) + " :: " + "build" + NotDefinedTail]
    ensures var t := Outcome(ScenarioFiles(pass, fail)).trace; |t| > 0 && t[|t| - 1] == SetFailed("1 violations found.")
  {
    var files := ScenarioFiles(pass, fail);
    var message := Message(DisplayName(fail), JobResult("build", Absent, NotDefined));
    ScenarioLoop(pass, fail);
    assert message == "[" + DisplayName(fail) + " :: " + "build" + NotDefinedTail;
    SummaryOfOne();
    var finals := FinalEvents([message]);
    assert finals[|finals| - 1] == SetFailed(Summary(1));
    var t := Outcome(files).trace;
    assert t == Process(files).trace + finals;
    assert t[|t| - 1] == finals[|finals| - 1];
  }
}
