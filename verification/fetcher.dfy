/**
 * The fetch loop: probe every generated filename in order, count each
 * response as a success or a failure, and merge each successful payload
 * into the snapshot. The network is a parameter of the model: `server`
 * gives the outcome of the GET for each filename.
 */
module Fetcher {
  import opened Wrappers
  import opened Text
  import opened Naming
  import opened Outlooks

  /** The outcome of one GET: a 200 response with its decoded body, a 404,
      any other status, or a transport error raised by the client. */
  datatype Outcome<P> = Ok(payload: P) | NotFound | OtherStatus(status: int) | TransportError

  /** The status dispatch: 200 is a success, 404 is an expected absence,
      anything else is anomalous. */
  function FromStatus<P>(status: int, body: P): (o: Outcome<P>)
    ensures o.Ok? <==> status == 200
    ensures o.Ok? ==> o.payload == body
    ensures o.NotFound? <==> status == 404
    ensures o.OtherStatus? <==> status != 200 && status != 404
    ensures o.OtherStatus? ==> o.status == status
  {
    if status == 200 then Ok(body) else if status == 404 then NotFound else OtherStatus(status)
  }

  /** The fetcher's state: the snapshot and the two counters. */
  datatype State<P> = State(data: Snapshot<P>, successful: nat, failed: nat)

  /** The exceptions the loop does not catch. */
  datatype Fault = IndexError | ValueError

  /** The loop either carries on, or has stopped on an uncaught exception
      with the state reached when it was raised. */
  datatype Status<P> = Running(state: State<P>) | Stopped(state: State<P>, fault: Fault)

  /** A new fetcher: an empty snapshot and both counters at zero. */
  function Init<P>(now: string, metadata: Metadata): (f: State<P>)
    ensures f.successful == 0 && f.failed == 0
    ensures Valid(f.data)
    ensures forall d :: BucketOf(f.data, d) == map[]
    ensures forall d, dt, k :: EntryAt(BucketOf(f.data, d), dt, k).None?
    ensures f.data.lastUpdated == now && f.data.metadata == metadata
  {
    State(NewSnapshot(now, metadata), 0, 0)
  }

  /** Where a successful response for `pattern` is merged: its bucket, its
      date and its outlook key; None when the key cannot be built. */
  function Location(pattern: string): (r: Option<(Day, string, string)>)
    ensures r.Some? <==> OutlookKey(pattern).Some?
  {
    match OutlookKey(pattern)
    case None => None
    case Some(key) => Some((Classify(pattern), DateOf(pattern), key))
  }

  /** A filename the loop body can decode without raising. */
  predicate Decodable(pattern: string)
  {
    OutlookKey(pattern).Some? && ParseVersion(pattern).Some?
  }

  /** One iteration of the loop. A non-200 outcome counts one failure and
      leaves the snapshot alone. A 200 counts one success; then the entry at
      the pattern's location is created if missing and offered the
      pattern's revision. A name with fewer than five fields stops the loop
      before the snapshot is touched; a revision that does not parse stops
      it after the entry has been created. Nothing outside the location
      changes. */
  function Process<P>(f: State<P>, pattern: string, o: Outcome<P>): (r: Status<P>)
    ensures r.state.successful + r.state.failed == f.successful + f.failed + 1
    ensures r.state.successful == f.successful + (if o.Ok? then 1 else 0)
    ensures !o.Ok? ==> r == Running(f.(failed := f.failed + 1))
    ensures r.Stopped? <==> o.Ok? && !Decodable(pattern)
    ensures r.Stopped? ==> (r.fault == IndexError <==> OutlookKey(pattern).None?)
    ensures r.Stopped? && r.fault == IndexError ==> r.state.data == f.data
    ensures forall d, dt, k :: (Location(pattern) != Some((d, dt, k))
      ==> EntryAt(BucketOf(r.state.data, d), dt, k) == EntryAt(BucketOf(f.data, d), dt, k))
    ensures o.Ok? && Location(pattern).Some? ==>
      var (d, dt, k) := Location(pattern).value;
      var before := EntryAt(BucketOf(f.data, d), dt, k).GetOr(Fresh());
      EntryAt(BucketOf(r.state.data, d), dt, k)
        == Some(if r.Running? then Bump(before, ParseVersion(pattern).value, o.payload) else before)
    ensures forall d :: d != Classify(pattern) ==> BucketOf(r.state.data, d) == BucketOf(f.data, d)
    ensures BucketOf(f.data, Classify(pattern)).Keys <= BucketOf(r.state.data, Classify(pattern)).Keys
         <= BucketOf(f.data, Classify(pattern)).Keys + {DateOf(pattern)}
    ensures forall dt :: dt in BucketOf(f.data, Classify(pattern)) && dt != DateOf(pattern) ==>
              BucketOf(r.state.data, Classify(pattern))[dt] == BucketOf(f.data, Classify(pattern))[dt]
    ensures r.state.data.lastUpdated == f.data.lastUpdated && r.state.data.metadata == f.data.metadata
  {
    match o
    case Ok(payload) =>
      var g := f.(successful := f.successful + 1);
      var day := Classify(pattern);
      var date := DateOf(pattern);
      (match OutlookKey(pattern)
       case None => Stopped(g, IndexError)
       case Some(key) =>
         match ParseVersion(pattern)
         case None => Stopped(g.(data := TouchIn(g.data, day, date, key)), ValueError)
         case Some(v) => Running(g.(data := Store(g.data, day, date, key, v, payload))))
    case _ => Running(f.(failed := f.failed + 1))
  }

  /** The status dispatch as the loop sees it: a response with status
      `status` counts one success exactly when the status is 200; any other
      status counts one failure and leaves the snapshot as it was. */
  lemma ProcessStatus<P>(f: State<P>, pattern: string, status: int, body: P)
    ensures Process(f, pattern, FromStatus(status, body)).state.successful
         == f.successful + (if status == 200 then 1 else 0)
    ensures status != 200 <==> Process(f, pattern, FromStatus(status, body)) == Running(f.(failed := f.failed + 1))
  {
  }

  /** The loop over `patterns` in order, stopping at the first uncaught exception. */
  function Run<P>(f: State<P>, patterns: seq<string>, server: string -> Outcome<P>): Status<P>
    decreases |patterns|
  {
    if patterns == [] then Running(f)
    else
      match Run(f, patterns[..|patterns| - 1], server)
      case Stopped(g, fault) => Stopped(g, fault)
      case Running(g) => Process(g, Last(patterns), server(Last(patterns)))
  }

  /** The number of patterns the server answers with a 200. */
  function CountOk<P>(patterns: seq<string>, server: string -> Outcome<P>): (n: nat)
    ensures n <= |patterns|
    decreases |patterns|
  {
    if patterns == [] then 0
    else CountOk(patterns[..|patterns| - 1], server) + (if server(Last(patterns)).Ok? then 1 else 0)
  }

  /** Running two lists one after the other is running their concatenation;
      once the loop has stopped, later patterns are never probed. */
  lemma {:induction false} RunAppend<P>(f: State<P>, ps: seq<string>, qs: seq<string>, server: string -> Outcome<P>)
    ensures Run(f, ps + qs, server)
         == (match Run(f, ps, server)
             case Stopped(g, fault) => Stopped(g, fault)
             case Running(g) => Run(g, qs, server))
    decreases |qs|
  {
    if qs == [] {
      assert ps + qs == ps;
    } else {
      var front := qs[..|qs| - 1];
      RunAppend(f, ps, front, server);
      assert (ps + qs)[..|ps + qs| - 1] == ps + front;
      assert Last(ps + qs) == Last(qs);
    }
  }

  /** Every probed pattern is counted exactly once: when the loop completes,
      the successes are the 200 answers and the failures are the rest; when
      it stops, at most every pattern has been counted. Neither counter ever
      goes down. */
  lemma {:induction false} RunCounters<P>(f: State<P>, patterns: seq<string>, server: string -> Outcome<P>)
    ensures var g := Run(f, patterns, server).state;
      && f.successful <= g.successful && f.failed <= g.failed
      && g.successful + g.failed <= f.successful + f.failed + |patterns|
    ensures Run(f, patterns, server).Running? ==>
      && Run(f, patterns, server).state.successful == f.successful + CountOk(patterns, server)
      && Run(f, patterns, server).state.failed == f.failed + |patterns| - CountOk(patterns, server)
    decreases |patterns|
  {
    if patterns != [] {
      RunCounters(f, patterns[..|patterns| - 1], server);
    }
  }

  /** The loop stops exactly when some pattern is answered with a 200 but
      cannot be decoded. */
  lemma {:induction false} RunStops<P>(f: State<P>, patterns: seq<string>, server: string -> Outcome<P>)
    ensures Run(f, patterns, server).Stopped?
        <==> exists i :: 0 <= i < |patterns| && server(patterns[i]).Ok? && !Decodable(patterns[i])
  {
    if i :| 0 <= i < |patterns| && server(patterns[i]).Ok? && !Decodable(patterns[i]) {
      RunStopsAt(f, patterns, server, i);
    } else {
      RunRuns(f, patterns, server);
    }
  }

  /** A 200 answer for a name that does not decode stops the loop. */
  lemma {:induction false} RunStopsAt<P>(f: State<P>, patterns: seq<string>, server: string -> Outcome<P>, i: nat)
    requires i < |patterns| && server(patterns[i]).Ok? && !Decodable(patterns[i])
    ensures Run(f, patterns, server).Stopped?
    decreases |patterns|
  {
    var front := patterns[..|patterns| - 1];
    RunStopsStep(f, patterns, server);
    if i < |front| {
      assert front[i] == patterns[i];
      RunStopsAt(f, front, server, i);
    }
  }

  /** When every 200-answered name decodes, the loop does not stop. */
  lemma {:induction false} RunRuns<P>(f: State<P>, patterns: seq<string>, server: string -> Outcome<P>)
    requires forall i :: 0 <= i < |patterns| && server(patterns[i]).Ok? ==> Decodable(patterns[i])
    ensures Run(f, patterns, server).Running?
    decreases |patterns|
  {
    if patterns != [] {
      var front := patterns[..|patterns| - 1];
      assert forall i :: 0 <= i < |front| ==> front[i] == patterns[i];
      RunRuns(f, front, server);
      RunStopsStep(f, patterns, server);
    }
  }

  /** The loop has stopped after a name exactly when it had stopped before
      it, or the name is answered with a 200 and does not decode. */
  lemma RunStopsStep<P>(f: State<P>, patterns: seq<string>, server: string -> Outcome<P>)
    requires patterns != []
    ensures Run(f, patterns, server).Stopped?
        <==> (Run(f, patterns[..|patterns| - 1], server).Stopped?
              || (server(Last(patterns)).Ok? && !Decodable(Last(patterns))))
  {
    var before := Run(f, patterns[..|patterns| - 1], server);
    if before.Running? {
      var o := server(Last(patterns));
      assert Process(before.state, Last(patterns), o).Stopped? <==> o.Ok? && !Decodable(Last(patterns));
    }
  }

  /** One iteration keeps the snapshot valid and only extends it. */
  lemma ProcessValid<P>(f: State<P>, pattern: string, o: Outcome<P>)
    requires Valid(f.data)
    ensures Valid(Process(f, pattern, o).state.data)
    ensures Extends(f.data, Process(f, pattern, o).state.data)
  {
    if o.Ok? && OutlookKey(pattern).Some? {
      var key := OutlookKey(pattern).value;
      if ParseVersion(pattern).Some? {
        StoreValid(f.data, Classify(pattern), DateOf(pattern), key, ParseVersion(pattern).value, o.payload);
        StoreExtends(f.data, Classify(pattern), DateOf(pattern), key, ParseVersion(pattern).value, o.payload);
      } else {
        TouchValid(f.data, Classify(pattern), DateOf(pattern), key);
        TouchExtends(f.data, Classify(pattern), DateOf(pattern), key);
      }
    }
  }

  /** The loop keeps the snapshot valid, only ever extends it (no entry is
      removed, no revision goes down, no stored payload is replaced), and
      never changes the timestamp or the metadata. */
  lemma {:induction false} RunValid<P>(f: State<P>, patterns: seq<string>, server: string -> Outcome<P>)
    requires Valid(f.data)
    ensures Valid(Run(f, patterns, server).state.data)
    ensures Extends(f.data, Run(f, patterns, server).state.data)
    ensures Run(f, patterns, server).state.data.lastUpdated == f.data.lastUpdated
    ensures Run(f, patterns, server).state.data.metadata == f.data.metadata
    decreases |patterns|
  {
    if patterns != [] {
      var front := patterns[..|patterns| - 1];
      RunValid(f, front, server);
      var g := Run(f, front, server);
      if g.Running? {
        ProcessValid(g.state, Last(patterns), server(Last(patterns)));
        ExtendsTransitive(f.data, g.state.data, Run(f, patterns, server).state.data);
      }
    }
  }

  /** A run over names that all decode completes, whatever the server
      answers, and counts each of them once. */
  lemma RunCompletes<P>(f: State<P>, patterns: seq<string>, server: string -> Outcome<P>)
    requires forall i :: 0 <= i < |patterns| ==> Decodable(patterns[i])
    ensures Run(f, patterns, server).Running?
    ensures Run(f, patterns, server).state.successful == f.successful + CountOk(patterns, server)
    ensures Run(f, patterns, server).state.successful + Run(f, patterns, server).state.failed
         == f.successful + f.failed + |patterns|
  {
    RunStops(f, patterns, server);
    RunCounters(f, patterns, server);
  }

  /** A generated name decodes to the parameters that built it. */
  lemma CandidateDecodable(dates: seq<string>, i: nat)
    requires forall k :: 0 <= k < |dates| ==> ValidDate(dates[k])
    requires i < |Candidates(dates)|
    ensures Decodable(Candidates(dates)[i])
  {
    CandidatesSound(dates, i);
    ParamsWellFormed(dates, i);
    var c := Params(dates)[i];
    DecodeRender(c);
    assert Candidates(dates)[i] == Render(c);
  }

  /** Every generated filename decodes. */
  lemma GeneratedDecodable(today: string)
    requires ValidDate(today)
    ensures forall i :: 0 <= i < |ConstructPatterns(today)| ==> Decodable(ConstructPatterns(today)[i])
  {
    var dates := DatePatterns(today);
    forall i | 0 <= i < |Candidates(dates)|
      ensures Decodable(Candidates(dates)[i])
    {
      CandidateDecodable(dates, i);
    }
  }

  /** A run from zero counters and a valid snapshot over names that all
      decode completes, counts every name once and keeps the snapshot valid. */
  lemma RunFromInit<P>(init: State<P>, patterns: seq<string>, server: string -> Outcome<P>)
    requires init.successful == 0 && init.failed == 0 && Valid(init.data)
    requires forall i :: 0 <= i < |patterns| ==> Decodable(patterns[i])
    ensures Run(init, patterns, server).Running?
    ensures Run(init, patterns, server).state.successful == CountOk(patterns, server)
    ensures Run(init, patterns, server).state.successful + Run(init, patterns, server).state.failed == |patterns|
    ensures Valid(Run(init, patterns, server).state.data)
  {
    RunCompletes(init, patterns, server);
    RunValid(init, patterns, server);
  }

  /** The whole `fetch_outlooks` run for the current date `today`, started
      from a new fetcher stamped `now`. */
  function FetchRun<P>(today: string, now: string, metadata: Metadata, server: string -> Outcome<P>): Status<P>
  {
    Run(Init(now, metadata), ConstructPatterns(today), server)
  }

  /** The run over the generated list never stops early, and it counts every
      one of the 480 probes: the 200 answers as successes and all the others
      as failures. */
  lemma FetchRunCompletes<P>(today: string, now: string, metadata: Metadata, server: string -> Outcome<P>)
    requires ValidDate(today)
    ensures FetchRun(today, now, metadata, server).Running?
    ensures FetchRun(today, now, metadata, server).state.successful == CountOk(ConstructPatterns(today), server)
    ensures FetchRun(today, now, metadata, server).state.successful + FetchRun(today, now, metadata, server).state.failed == PerDate
    ensures Valid(FetchRun(today, now, metadata, server).state.data)
  {
    var patterns := ConstructPatterns(today);
    ConstructPatternsShape(today);
    GeneratedDecodable(today);
    RunFromInit(Init<P>(now, metadata), patterns, server);
  }

  /** The loop of `fetch_outlooks`: process each pattern in order, leaving
      the loop when an exception escapes. */
  method RunLoop<P>(init: State<P>, patterns: seq<string>, server: string -> Outcome<P>) returns (r: Status<P>)
    ensures r == Run(init, patterns, server)
    ensures r.Running? ==> r.state.successful + r.state.failed == init.successful + init.failed + |patterns|
  {
    var st: Status<P> := Running(init);
    var i := 0;
    while i < |patterns| && st.Running?
      invariant 0 <= i <= |patterns|
      invariant st == Run(init, patterns[..i], server)
    {
      assert patterns[..i + 1][..i] == patterns[..i];
      st := Process(st.state, patterns[i], server(patterns[i]));
      i := i + 1;
    }
    RunAppend(init, patterns[..i], patterns[i..], server);
    assert patterns[..i] + patterns[i..] == patterns;
    r := st;
    RunCounters(init, patterns, server);
  }

  /** `fetch_outlooks`: a new fetcher stamped `now` probes the filenames
      generated for `today`. */
  method FetchOutlooks<P>(today: string, now: string, metadata: Metadata, server: string -> Outcome<P>)
    returns (r: Status<P>)
    ensures r == FetchRun(today, now, metadata, server)
    ensures r.Running? ==> r.state.successful + r.state.failed == PerDate
    ensures ValidDate(today) ==> r.Running?
  {
    ConstructPatternsShape(today);
    r := RunLoop(Init(now, metadata), ConstructPatterns(today), server);
    if ValidDate(today) {
      FetchRunCompletes(today, now, metadata, server);
    }
  }
}
