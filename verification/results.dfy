/**
 * What a completed run leaves in the snapshot. Every entry is the entry it
 * started as, replayed through the revisions the run offered to it; for the
 * generated list, the offers to one outlook are exactly the revisions the
 * server holds for it, in increasing order, so the entry ends up holding all
 * of them with the newest as current.
 */
module Results {
  import opened Wrappers
  import opened Text
  import opened Seqs
  import opened Naming
  import opened Outlooks
  import opened Fetcher

  /** The response to `p` is merged into the entry at `loc`. */
  predicate Feeds<P>(p: string, o: Outcome<P>, loc: (Day, string, string))
  {
    o.Ok? && Location(p) == Some(loc) && ParseVersion(p).Some?
  }

  /** The (revision, payload) offers a run over `patterns` makes to the
      entry at `loc`, in arrival order. */
  function Offers<P>(patterns: seq<string>, server: string -> Outcome<P>, loc: (Day, string, string)): seq<(nat, P)>
    decreases |patterns|
  {
    if patterns == [] then []
    else
      var p := Last(patterns);
      Offers(patterns[..|patterns| - 1], server, loc)
        + (if Feeds(p, server(p), loc) then [(ParseVersion(p).value, server(p).payload)] else [])
  }

  /** An optional starting entry after a run of offers: untouched when there
      are none, otherwise created if missing and offered each in turn. */
  function Replay<P>(start: Option<Entry<P>>, offers: seq<(nat, P)>): Option<Entry<P>>
  {
    if offers == [] then start else Some(BumpAll(start.GetOr(Fresh()), offers))
  }

  /** Offering one more revision at the end of a run. */
  lemma {:induction false} BumpAllSnoc<P>(e: Entry<P>, xs: seq<(nat, P)>, x: (nat, P))
    ensures BumpAll(e, xs + [x]) == Bump(BumpAll(e, xs), x.0, x.1)
    decreases |xs|
  {
    if xs == [] {
      assert xs + [x] == [x];
      assert [x][1..] == [];
    } else {
      assert (xs + [x])[0] == xs[0];
      assert (xs + [x])[1..] == xs[1..] + [x];
      BumpAllSnoc(Bump(e, xs[0].0, xs[0].1), xs[1..], x);
    }
  }

  lemma ReplaySnoc<P>(start: Option<Entry<P>>, xs: seq<(nat, P)>, x: (nat, P))
    ensures Replay(start, xs + [x]) == Some(Bump(Replay(start, xs).GetOr(Fresh()), x.0, x.1))
  {
    BumpAllSnoc(start.GetOr(Fresh()), xs, x);
    if xs == [] {
      assert xs + [x] == [x];
      assert [x][1..] == [];
    }
  }

  /** After a run that completes, the entry at any location is its starting
      entry replayed through exactly the offers the run made to it. */
  lemma {:induction false} RunEntry<P>(f: State<P>, patterns: seq<string>, server: string -> Outcome<P>, loc: (Day, string, string))
    requires Run(f, patterns, server).Running?
    ensures EntryAt(BucketOf(Run(f, patterns, server).state.data, loc.0), loc.1, loc.2)
         == Replay(EntryAt(BucketOf(f.data, loc.0), loc.1, loc.2), Offers(patterns, server, loc))
    decreases |patterns|
  {
    if patterns != [] {
      var front := patterns[..|patterns| - 1];
      var p := Last(patterns);
      assert Run(f, front, server).Running?;
      RunEntry(f, front, server, loc);
      var xs := Offers(front, server, loc);
      var start := EntryAt(BucketOf(f.data, loc.0), loc.1, loc.2);
      if Feeds(p, server(p), loc) {
        ReplaySnoc(start, xs, (ParseVersion(p).value, server(p).payload));
      } else {
        assert Offers(patterns, server, loc) == xs + [];
        assert xs + [] == xs;
      }
    }
  }

  /** Every pattern that feeds the location makes its offer. */
  lemma {:induction false} OffersHas<P>(patterns: seq<string>, server: string -> Outcome<P>, loc: (Day, string, string), i: nat)
    requires i < |patterns| && Feeds(patterns[i], server(patterns[i]), loc)
    ensures (ParseVersion(patterns[i]).value, server(patterns[i]).payload) in Offers(patterns, server, loc)
    decreases |patterns|
  {
    var front := patterns[..|patterns| - 1];
    if i < |front| {
      assert front[i] == patterns[i];
      OffersHas(front, server, loc, i);
    }
  }

  /** An offer comes from a pattern that feeds the location, and every such
      pattern makes one. */
  lemma {:induction false} OffersMember<P>(patterns: seq<string>, server: string -> Outcome<P>, loc: (Day, string, string), x: (nat, P))
    ensures x in Offers(patterns, server, loc)
        <==> exists i :: 0 <= i < |patterns| && Feeds(patterns[i], server(patterns[i]), loc)
                         && x == (ParseVersion(patterns[i]).value, server(patterns[i]).payload)
    decreases |patterns|
  {
    if patterns != [] {
      var front := patterns[..|patterns| - 1];
      var last := |patterns| - 1;
      if x in Offers(front, server, loc) {
        OffersMember(front, server, loc, x);
        var i :| 0 <= i < |front| && Feeds(front[i], server(front[i]), loc)
                 && x == (ParseVersion(front[i]).value, server(front[i]).payload);
        assert patterns[i] == front[i];
      } else if x in Offers(patterns, server, loc) {
        assert Feeds(patterns[last], server(patterns[last]), loc)
               && x == (ParseVersion(patterns[last]).value, server(patterns[last]).payload);
      }
      if i :| 0 <= i < |patterns| && Feeds(patterns[i], server(patterns[i]), loc)
             && x == (ParseVersion(patterns[i]).value, server(patterns[i]).payload) {
        OffersHas(patterns, server, loc, i);
      }
    }
  }

  /** When the patterns that feed a location come in strictly increasing
      revision order, all above `floor`, so do the offers. */
  lemma {:induction false} OffersAscending<P>(patterns: seq<string>, server: string -> Outcome<P>, loc: (Day, string, string), floor: nat)
    requires forall i :: (0 <= i < |patterns| && Feeds(patterns[i], server(patterns[i]), loc)
      ==> floor < ParseVersion(patterns[i]).value)
    requires forall i, j :: (0 <= i < j < |patterns| && Feeds(patterns[i], server(patterns[i]), loc)
      && Feeds(patterns[j], server(patterns[j]), loc)
      ==> ParseVersion(patterns[i]).value < ParseVersion(patterns[j]).value)
    ensures Ascending(floor, Offers(patterns, server, loc))
    decreases |patterns|
  {
    if patterns != [] {
      var front := patterns[..|patterns| - 1];
      var p := Last(patterns);
      assert forall i :: 0 <= i < |front| ==> front[i] == patterns[i];
      OffersAscending(front, server, loc, floor);
      var xs := Offers(front, server, loc);
      if Feeds(p, server(p), loc) {
        var x := (ParseVersion(p).value, server(p).payload);
        var ys := xs + [x];
        forall j | 0 <= j < |xs|
          ensures xs[j].0 < x.0
        {
          OffersMember(front, server, loc, xs[j]);
          var i :| 0 <= i < |front| && Feeds(front[i], server(front[i]), loc)
                   && xs[j] == (ParseVersion(front[i]).value, server(front[i]).payload);
          assert patterns[|patterns| - 1] == p;
        }
        forall k | 0 <= k < |ys|
          ensures floor < ys[k].0 && forall j :: 0 <= j < k ==> ys[j].0 < ys[k].0
        {
          if k < |xs| {
            assert ys[k] == xs[k];
            assert forall j :: 0 <= j < k ==> ys[j] == xs[j];
          } else {
            assert ys[k] == x;
            assert forall j :: 0 <= j < k ==> ys[j] == xs[j];
          }
        }
      } else {
        assert Offers(patterns, server, loc) == xs + [];
        assert xs + [] == xs;
      }
    }
  }

  // ---------------------------------------------------------------------
  // The generated list

  /** The candidate for time `Times[b]`, region pair `Regions[r]` and
      horizon `Periods[e]` on `date`, at revision `v`. */
  function Combo(date: string, b: nat, r: nat, e: nat, v: nat): Candidate
    requires b < |Times| && r < |Regions| && e < |Periods|
  {
    Candidate(date, Times[b], Regions[r].0, Regions[r].1, Periods[e], v)
  }

  /** Where that outlook is stored: its horizon's bucket, its date, its key. */
  function ComboLocation(date: string, b: nat, r: nat, e: nat): (Day, string, string)
    requires b < |Times| && r < |Regions| && e < |Periods|
  {
    (DayOf(Periods[e]), date, KeyOf(Combo(date, b, r, e, 0)))
  }

  /** Distinct table combinations are stored at distinct locations. */
  lemma ComboLocationInjective(date: string, b: nat, r: nat, e: nat, b': nat, r': nat, e': nat)
    requires ValidDate(date)
    requires b < |Times| && r < |Regions| && e < |Periods|
    requires b' < |Times| && r' < |Regions| && e' < |Periods|
    ensures ComboLocation(date, b, r, e) == ComboLocation(date, b', r', e') <==> b == b' && r == r' && e == e'
  {
    var c := Combo(date, b, r, e, 0);
    var d := Combo(date, b', r', e', 0);
    TablesWellFormed(date, Times[b], Regions[r], Periods[e], 0);
    TablesWellFormed(date, Times[b'], Regions[r'], Periods[e'], 0);
    KeyOfInjective(c, d);
    TablesDistinct();
    assert DayOf(Periods[e]) == Days[e] && DayOf(Periods[e']) == Days[e'];
    if KeyOf(c) == KeyOf(d) {
      assert Times[b] == Times[b'];
      assert Regions[r] == (c.spc, c.province) == (d.spc, d.province) == Regions[r'];
    }
  }

  /** Splitting a position of the per-date list into its loop indices. */
  lemma Decompose(i: nat) returns (b: nat, r: nat, e: nat, g: nat)
    requires i < PerDate
    ensures b < |Times| && r < |Regions| && e < |Periods| && g < |Versions|
    ensures i == Index(0, b, r, e, g)
  {
    b := i / 160;
    var i1 := i % 160;
    assert i == b * 160 + i1;
    r := i1 / 16;
    var i2 := i1 % 16;
    assert i1 == r * 16 + i2;
    e := i2 / 4;
    g := i2 % 4;
    assert i2 == e * 4 + g;
  }

  /** Loop indices are determined by the position they give. */
  lemma IndexUnique(b: nat, r: nat, e: nat, g: nat, b': nat, r': nat, e': nat, g': nat)
    requires b < |Times| && r < |Regions| && e < |Periods| && g < |Versions|
    requires b' < |Times| && r' < |Regions| && e' < |Periods| && g' < |Versions|
    requires Index(0, b, r, e, g) == Index(0, b', r', e', g')
    ensures b == b' && r == r' && e == e' && g == g'
  {
  }

  /** A combination's name, at any revision, decodes to the combination's
      location and to that revision. */
  lemma ComboDecodes(date: string, b: nat, r: nat, e: nat, v: nat)
    requires ValidDate(date)
    requires b < |Times| && r < |Regions| && e < |Periods|
    ensures Location(Render(Combo(date, b, r, e, v))) == Some(ComboLocation(date, b, r, e))
    ensures ParseVersion(Render(Combo(date, b, r, e, v))) == Some(v)
  {
    var c := Combo(date, b, r, e, v);
    TablesWellFormed(date, Times[b], Regions[r], Periods[e], v);
    DecodeRender(c);
    assert KeyOf(c) == KeyOf(Combo(date, b, r, e, 0));
  }

  /** Every combination's name at every revision is generated, at the
      position its loop indices give. */
  lemma ComboGenerated(today: string, b: nat, r: nat, e: nat, g: nat)
    requires b < |Times| && r < |Regions| && e < |Periods| && g < |Versions|
    ensures Index(0, b, r, e, g) < |ConstructPatterns(today)|
    ensures ConstructPatterns(today)[Index(0, b, r, e, g)] == Render(Combo(today, b, r, e, g + 1))
  {
    var dates := DatePatterns(today);
    ParamsAt(dates, 0, b, r, e, g);
    VersionsAt(g);
    assert Candidates(dates)[Index(0, b, r, e, g)] == Render(Params(dates)[Index(0, b, r, e, g)]);
  }

  /** The generated name at position `i`: which combination and revision it
      is, where it is stored and which revision it carries. */
  lemma PatternAt(today: string, i: nat) returns (b: nat, r: nat, e: nat, g: nat)
    requires ValidDate(today)
    requires i < |ConstructPatterns(today)|
    ensures b < |Times| && r < |Regions| && e < |Periods| && g < |Versions|
    ensures i == Index(0, b, r, e, g)
    ensures ConstructPatterns(today)[i] == Render(Combo(today, b, r, e, g + 1))
    ensures Location(ConstructPatterns(today)[i]) == Some(ComboLocation(today, b, r, e))
    ensures ParseVersion(ConstructPatterns(today)[i]) == Some(g + 1)
  {
    ConstructPatternsShape(today);
    b, r, e, g := Decompose(i);
    ComboGenerated(today, b, r, e, g);
    ComboDecodes(today, b, r, e, g + 1);
  }

  /** The offers the generated run makes to one outlook are ascending from 0. */
  lemma GeneratedAscending<P>(today: string, server: string -> Outcome<P>, b: nat, r: nat, e: nat)
    requires ValidDate(today)
    requires b < |Times| && r < |Regions| && e < |Periods|
    ensures Ascending(0, Offers(ConstructPatterns(today), server, ComboLocation(today, b, r, e)))
  {
    var ps := ConstructPatterns(today);
    var loc := ComboLocation(today, b, r, e);
    forall i | 0 <= i < |ps| && Feeds(ps[i], server(ps[i]), loc)
      ensures 0 < ParseVersion(ps[i]).value
    {
      var b', r', e', g' := PatternAt(today, i);
    }
    forall i, j | 0 <= i < j < |ps| && Feeds(ps[i], server(ps[i]), loc) && Feeds(ps[j], server(ps[j]), loc)
      ensures ParseVersion(ps[i]).value < ParseVersion(ps[j]).value
    {
      var bi, ri, ei, gi := PatternAt(today, i);
      var bj, rj, ej, gj := PatternAt(today, j);
      ComboLocationInjective(today, bi, ri, ei, b, r, e);
      ComboLocationInjective(today, bj, rj, ej, b, r, e);
    }
    OffersAscending(ps, server, loc, 0);
  }

  /** The revisions of one outlook that the server answers with a 200. */
  predicate Available<P>(today: string, server: string -> Outcome<P>, b: nat, r: nat, e: nat, v: nat)
    requires b < |Times| && r < |Regions| && e < |Periods|
  {
    1 <= v <= 4 && server(Render(Combo(today, b, r, e, v))).Ok?
  }

  /** Every offer the generated run makes to one outlook is an available
      revision with the payload the server returned for it. */
  lemma GeneratedOffersSound<P>(today: string, server: string -> Outcome<P>, b: nat, r: nat, e: nat, x: (nat, P))
    requires ValidDate(today)
    requires b < |Times| && r < |Regions| && e < |Periods|
    requires x in Offers(ConstructPatterns(today), server, ComboLocation(today, b, r, e))
    ensures Available(today, server, b, r, e, x.0) && x.1 == server(Render(Combo(today, b, r, e, x.0))).payload
  {
    var ps := ConstructPatterns(today);
    var loc := ComboLocation(today, b, r, e);
    OffersMember(ps, server, loc, x);
    var i :| 0 <= i < |ps| && Feeds(ps[i], server(ps[i]), loc)
             && x == (ParseVersion(ps[i]).value, server(ps[i]).payload);
    var b', r', e', g' := PatternAt(today, i);
    ComboLocationInjective(today, b', r', e', b, r, e);
  }

  /** Every available revision of one outlook is offered to it, with the
      payload the server returned. */
  lemma GeneratedOffersComplete<P>(today: string, server: string -> Outcome<P>, b: nat, r: nat, e: nat, v: nat)
    requires ValidDate(today)
    requires b < |Times| && r < |Regions| && e < |Periods|
    requires Available(today, server, b, r, e, v)
    ensures (v, server(Render(Combo(today, b, r, e, v))).payload)
         in Offers(ConstructPatterns(today), server, ComboLocation(today, b, r, e))
  {
    var ps := ConstructPatterns(today);
    var loc := ComboLocation(today, b, r, e);
    var name := Render(Combo(today, b, r, e, v));
    ComboGenerated(today, b, r, e, v - 1);
    ComboDecodes(today, b, r, e, v);
    var i := Index(0, b, r, e, v - 1);
    assert ps[i] == name && Feeds(name, server(name), loc);
    OffersHas(ps, server, loc, i);
  }

  // ---------------------------------------------------------------------
  // The snapshot after a run over the generated list

  /** A fresh entry offered an ascending, non-empty run of revisions holds
      exactly those revisions, each with its own payload, and the last and
      highest of them is current. */
  lemma AscendingFromFresh<P>(offers: seq<(nat, P)>)
    requires offers != [] && Ascending(0, offers)
    ensures forall l :: l in BumpAll(Fresh(), offers).outlooks <==> exists i :: 0 <= i < |offers| && l == Label(offers[i].0)
    ensures forall i :: 0 <= i < |offers| ==> BumpAll(Fresh(), offers).outlooks[Label(offers[i].0)] == offers[i].1
    ensures exists i :: 0 <= i < |offers| && BumpAll(Fresh(), offers).currentVersion == offers[i].0
    ensures forall i :: 0 <= i < |offers| ==> offers[i].0 <= BumpAll(Fresh(), offers).currentVersion
  {
    AscendingStoresAll(Fresh(), offers);
    BumpAllCurrent(Fresh(), offers);
    MaxFromBounds(0, offers);
    assert 0 < offers[0].0 <= MaxFrom(0, offers);
  }

  /** The offers the generated run makes to one outlook: ascending, and
      exactly its available revisions with their payloads. */
  lemma GeneratedOffersFacts<P>(today: string, server: string -> Outcome<P>, b: nat, r: nat, e: nat)
    requires ValidDate(today)
    requires b < |Times| && r < |Regions| && e < |Periods|
    ensures var offers := Offers(ConstructPatterns(today), server, ComboLocation(today, b, r, e));
      && Ascending(0, offers)
      && (forall v: nat :: Available(today, server, b, r, e, v)
            ==> (v, server(Render(Combo(today, b, r, e, v))).payload) in offers)
      && (forall i :: 0 <= i < |offers| ==>
            Available(today, server, b, r, e, offers[i].0)
            && offers[i].1 == server(Render(Combo(today, b, r, e, offers[i].0))).payload)
  {
    var offers := Offers(ConstructPatterns(today), server, ComboLocation(today, b, r, e));
    forall v: nat | Available(today, server, b, r, e, v)
      ensures (v, server(Render(Combo(today, b, r, e, v))).payload) in offers
    {
      GeneratedOffersComplete(today, server, b, r, e, v);
    }
    forall i | 0 <= i < |offers|
      ensures Available(today, server, b, r, e, offers[i].0)
      ensures offers[i].1 == server(Render(Combo(today, b, r, e, offers[i].0))).payload
    {
      GeneratedOffersSound(today, server, b, r, e, offers[i]);
    }
    GeneratedAscending(today, server, b, r, e);
  }

  /** The entry that the offers to one outlook build from nothing, given
      that they are ascending and are exactly its available revisions. */
  lemma OffersEntry<P>(today: string, server: string -> Outcome<P>, b: nat, r: nat, e: nat, offers: seq<(nat, P)>)
    requires b < |Times| && r < |Regions| && e < |Periods|
    requires Ascending(0, offers)
    requires forall v: nat :: (Available(today, server, b, r, e, v)
      ==> (v, server(Render(Combo(today, b, r, e, v))).payload) in offers)
    requires forall i :: (0 <= i < |offers| ==>
      Available(today, server, b, r, e, offers[i].0)
      && offers[i].1 == server(Render(Combo(today, b, r, e, offers[i].0))).payload)
    ensures var entry := Replay(None, offers);
      && (entry.Some? <==> exists v: nat :: Available(today, server, b, r, e, v))
      && (entry.Some? ==>
          && (forall l :: l in entry.value.outlooks <==> exists v: nat :: Available(today, server, b, r, e, v) && l == Label(v))
          && (forall v: nat :: Available(today, server, b, r, e, v) ==>
                Label(v) in entry.value.outlooks
                && entry.value.outlooks[Label(v)] == server(Render(Combo(today, b, r, e, v))).payload)
          && Available(today, server, b, r, e, entry.value.currentVersion)
          && (forall v: nat :: Available(today, server, b, r, e, v) ==> v <= entry.value.currentVersion))
  {
    if offers != [] {
      AscendingFromFresh(offers);
      var en := BumpAll(Fresh(), offers);
      assert Available(today, server, b, r, e, offers[0].0);
      forall l
        ensures l in en.outlooks <==> exists v: nat :: Available(today, server, b, r, e, v) && l == Label(v)
      {
        if v: nat :| Available(today, server, b, r, e, v) && l == Label(v) {
          var x := (v, server(Render(Combo(today, b, r, e, v))).payload);
          var i :| 0 <= i < |offers| && offers[i] == x;
        }
      }
      forall v: nat | Available(today, server, b, r, e, v)
        ensures Label(v) in en.outlooks
        ensures en.outlooks[Label(v)] == server(Render(Combo(today, b, r, e, v))).payload
        ensures v <= en.currentVersion
      {
        var x := (v, server(Render(Combo(today, b, r, e, v))).payload);
        var i :| 0 <= i < |offers| && offers[i] == x;
      }
    } else {
      forall v: nat | Available(today, server, b, r, e, v)
        ensures (v, server(Render(Combo(today, b, r, e, v))).payload) in offers
      {
      }
    }
  }

  /** After the run for a valid `today`, an outlook has an entry exactly when
      the server has some revision of it; the entry then holds exactly those
      revisions, each with the payload the server returned, and the highest
      of them is current. */
  lemma FetchedEntry<P>(today: string, now: string, metadata: Metadata, server: string -> Outcome<P>, b: nat, r: nat, e: nat)
    requires ValidDate(today)
    requires b < |Times| && r < |Regions| && e < |Periods|
    ensures var entry := EntryAt(BucketOf(FetchRun(today, now, metadata, server).state.data, DayOf(Periods[e])),
                                 today, KeyOf(Combo(today, b, r, e, 0)));
      && (entry.Some? <==> exists v: nat :: Available(today, server, b, r, e, v))
      && (entry.Some? ==>
          && (forall l :: l in entry.value.outlooks <==> exists v: nat :: Available(today, server, b, r, e, v) && l == Label(v))
          && (forall v: nat :: Available(today, server, b, r, e, v) ==>
                Label(v) in entry.value.outlooks
                && entry.value.outlooks[Label(v)] == server(Render(Combo(today, b, r, e, v))).payload)
          && Available(today, server, b, r, e, entry.value.currentVersion)
          && (forall v: nat :: Available(today, server, b, r, e, v) ==> v <= entry.value.currentVersion))
  {
    var ps := ConstructPatterns(today);
    var loc := ComboLocation(today, b, r, e);
    FetchRunCompletes(today, now, metadata, server);
    RunEntry(Init(now, metadata), ps, server, loc);
    GeneratedOffersFacts(today, server, b, r, e);
    OffersEntry(today, server, b, r, e, Offers(ps, server, loc));
  }

  /** An entry that a completed run leaves where there was none was fed by
      some pattern of the run. */
  lemma RunCreated<P>(f: State<P>, patterns: seq<string>, server: string -> Outcome<P>, loc: (Day, string, string))
    requires Run(f, patterns, server).Running?
    requires EntryAt(BucketOf(f.data, loc.0), loc.1, loc.2).None?
    requires EntryAt(BucketOf(Run(f, patterns, server).state.data, loc.0), loc.1, loc.2).Some?
    ensures exists i :: 0 <= i < |patterns| && Feeds(patterns[i], server(patterns[i]), loc)
  {
    RunEntry(f, patterns, server, loc);
    var offers := Offers(patterns, server, loc);
    assert offers != [];
    OffersMember(patterns, server, loc, offers[0]);
  }

  /** After the run for a valid `today`, every entry belongs to today's date
      and to one of the generated outlooks: the one returned. */
  lemma FetchedNothingElse<P>(today: string, now: string, metadata: Metadata, server: string -> Outcome<P>, d: Day, dt: string, k: string)
    returns (b: nat, r: nat, e: nat)
    requires ValidDate(today)
    requires EntryAt(BucketOf(FetchRun(today, now, metadata, server).state.data, d), dt, k).Some?
    ensures b < |Times| && r < |Regions| && e < |Periods|
    ensures (d, dt, k) == ComboLocation(today, b, r, e)
  {
    var ps := ConstructPatterns(today);
    FetchRunCompletes(today, now, metadata, server);
    RunCreated(Init(now, metadata), ps, server, (d, dt, k));
    var i :| 0 <= i < |ps| && Feeds(ps[i], server(ps[i]), (d, dt, k));
    var g;
    b, r, e, g := PatternAt(today, i);
  }

  // ---------------------------------------------------------------------
  // A run against a server that holds a single file

  /** With no 200 answer among the patterns, none is counted. */
  lemma {:induction false} CountOkNone<P>(patterns: seq<string>, server: string -> Outcome<P>)
    requires forall i :: 0 <= i < |patterns| ==> !server(patterns[i]).Ok?
    ensures CountOk(patterns, server) == 0
    decreases |patterns|
  {
    if patterns != [] {
      var front := patterns[..|patterns| - 1];
      assert forall i :: 0 <= i < |front| ==> front[i] == patterns[i];
      CountOkNone(front, server);
    }
  }

  /** When the server answers 200 for one name only, and that name occurs
      once among distinct patterns, exactly one success is counted. */
  lemma {:induction false} CountOkOne<P>(patterns: seq<string>, server: string -> Outcome<P>, name: string)
    requires Distinct(patterns) && name in patterns
    requires forall x :: server(x).Ok? <==> x == name
    ensures CountOk(patterns, server) == 1
    decreases |patterns|
  {
    var front := patterns[..|patterns| - 1];
    assert forall i :: 0 <= i < |front| ==> front[i] == patterns[i];
    if Last(patterns) == name {
      forall i | 0 <= i < |front|
        ensures !server(front[i]).Ok?
      {
        assert patterns[i] != patterns[|patterns| - 1];
      }
      CountOkNone(front, server);
    } else {
      assert name in front by {
        var j :| 0 <= j < |patterns| && patterns[j] == name;
        assert j < |front|;
      }
      CountOkOne(front, server, name);
    }
  }

  /** With a server that answers 200 for one generated name only, the
      name of revision `g + 1` of combination `(b, r, e)`, and no
      other, that name is revision `g + 1` of that combination alone. */
  lemma SingleAvailable<P>(today: string, server: string -> Outcome<P>, b: nat, r: nat, e: nat, g: nat,
                           b': nat, r': nat, e': nat, v: nat)
    requires ValidDate(today)
    requires b < |Times| && r < |Regions| && e < |Periods| && g < |Versions|
    requires b' < |Times| && r' < |Regions| && e' < |Periods|
    requires forall x :: server(x).Ok? <==> x == Render(Combo(today, b, r, e, g + 1))
    ensures Available(today, server, b', r', e', v) <==> b' == b && r' == r && e' == e && v == g + 1
  {
    TablesWellFormed(today, Times[b'], Regions[r'], Periods[e'], v);
    TablesWellFormed(today, Times[b], Regions[r], Periods[e], g + 1);
    RenderInjective(Combo(today, b', r', e', v), Combo(today, b, r, e, g + 1));
    TablesDistinct();
  }

  /** With one generated name on the server, the run completes and counts
      one success and 479 failures. */
  lemma SingleCounts<P>(today: string, now: string, metadata: Metadata, server: string -> Outcome<P>, b: nat, r: nat, e: nat, g: nat)
    requires ValidDate(today)
    requires b < |Times| && r < |Regions| && e < |Periods| && g < |Versions|
    requires forall x :: server(x).Ok? <==> x == Render(Combo(today, b, r, e, g + 1))
    ensures FetchRun(today, now, metadata, server).Running?
    ensures FetchRun(today, now, metadata, server).state.successful == 1
    ensures FetchRun(today, now, metadata, server).state.failed == 479
  {
    FetchRunCompletes(today, now, metadata, server);
    ConstructPatternsShape(today);
    ComboGenerated(today, b, r, e, g);
    CountOkOne(ConstructPatterns(today), server, Render(Combo(today, b, r, e, g + 1)));
  }

  /** An entry whose only label is that of its current revision `w`. */
  lemma EntryOfOne<P>(en: Entry<P>, w: nat, payload: P)
    requires forall l :: l in en.outlooks <==> l == Label(w)
    requires Label(w) in en.outlooks && en.outlooks[Label(w)] == payload
    requires en.currentVersion == w
    ensures en == Entry(w, map[Label(w) := payload])
  {
    assert en.outlooks == map[Label(w) := payload];
  }

  /** With one generated name on the server, exactly one revision of its
      outlook is available, and none of any other outlook. */
  lemma SingleAvailableAll<P>(today: string, server: string -> Outcome<P>, b: nat, r: nat, e: nat, g: nat)
    requires ValidDate(today)
    requires b < |Times| && r < |Regions| && e < |Periods| && g < |Versions|
    requires forall x :: server(x).Ok? <==> x == Render(Combo(today, b, r, e, g + 1))
    ensures forall v: nat :: Available(today, server, b, r, e, v) <==> v == g + 1
  {
    forall v: nat
      ensures Available(today, server, b, r, e, v) <==> v == g + 1
    {
      SingleAvailable(today, server, b, r, e, g, b, r, e, v);
    }
  }

  /** The entry of an outlook with exactly one available revision exists
      and holds that revision's label only. */
  lemma SingleEntryLabels<P>(today: string, now: string, metadata: Metadata, server: string -> Outcome<P>, b: nat, r: nat, e: nat, g: nat)
    requires ValidDate(today)
    requires b < |Times| && r < |Regions| && e < |Periods| && g < |Versions|
    requires forall v: nat :: Available(today, server, b, r, e, v) <==> v == g + 1
    ensures var entry := EntryAt(BucketOf(FetchRun(today, now, metadata, server).state.data, DayOf(Periods[e])), today, KeyOf(Combo(today, b, r, e, 0)));
      entry.Some? && forall l :: l in entry.value.outlooks <==> l == Label(g + 1)
  {
    var entry := EntryAt(BucketOf(FetchRun(today, now, metadata, server).state.data, DayOf(Periods[e])), today, KeyOf(Combo(today, b, r, e, 0)));
    FetchedEntry(today, now, metadata, server, b, r, e);
    assert Available(today, server, b, r, e, g + 1);
    forall l
      ensures l in entry.value.outlooks <==> l == Label(g + 1)
    {
      if l in entry.value.outlooks {
        var v: nat :| Available(today, server, b, r, e, v) && l == Label(v);
        assert v == g + 1;
      }
    }
  }

  /** After the run, an available revision of an outlook is stored in its
      entry with the payload the server returned for it. */
  lemma FetchedPayload<P>(today: string, now: string, metadata: Metadata, server: string -> Outcome<P>, b: nat, r: nat, e: nat, v: nat)
    requires ValidDate(today)
    requires b < |Times| && r < |Regions| && e < |Periods|
    requires Available(today, server, b, r, e, v)
    ensures var entry := EntryAt(BucketOf(FetchRun(today, now, metadata, server).state.data, DayOf(Periods[e])), today, KeyOf(Combo(today, b, r, e, 0)));
      && entry.Some? && Label(v) in entry.value.outlooks
      && entry.value.outlooks[Label(v)] == server(Render(Combo(today, b, r, e, v))).payload
  {
    FetchedEntry(today, now, metadata, server, b, r, e);
  }

  /** ... and that revision is current. */
  lemma SingleEntryCurrent<P>(today: string, now: string, metadata: Metadata, server: string -> Outcome<P>, b: nat, r: nat, e: nat, g: nat)
    requires ValidDate(today)
    requires b < |Times| && r < |Regions| && e < |Periods| && g < |Versions|
    requires forall v: nat :: Available(today, server, b, r, e, v) <==> v == g + 1
    ensures var entry := EntryAt(BucketOf(FetchRun(today, now, metadata, server).state.data, DayOf(Periods[e])), today, KeyOf(Combo(today, b, r, e, 0)));
      entry.Some? && entry.value.currentVersion == g + 1
  {
    FetchedEntry(today, now, metadata, server, b, r, e);
    assert Available(today, server, b, r, e, g + 1);
  }

  /** With one generated name on the server, its outlook's entry is at its
      revision and holds exactly that revision with the payload returned. */
  lemma SingleEntry<P>(today: string, now: string, metadata: Metadata, server: string -> Outcome<P>, b: nat, r: nat, e: nat, g: nat, payload: P)
    requires ValidDate(today)
    requires b < |Times| && r < |Regions| && e < |Periods| && g < |Versions|
    requires forall x :: server(x).Ok? <==> x == Render(Combo(today, b, r, e, g + 1))
    requires server(Render(Combo(today, b, r, e, g + 1))) == Ok(payload)
    ensures EntryAt(BucketOf(FetchRun(today, now, metadata, server).state.data, DayOf(Periods[e])), today, KeyOf(Combo(today, b, r, e, 0)))
         == Some(Entry(g + 1, map[Label(g + 1) := payload]))
  {
    var entry := EntryAt(BucketOf(FetchRun(today, now, metadata, server).state.data, DayOf(Periods[e])), today, KeyOf(Combo(today, b, r, e, 0)));
    SingleAvailableAll(today, server, b, r, e, g);
    SingleEntryLabels(today, now, metadata, server, b, r, e, g);
    FetchedPayload(today, now, metadata, server, b, r, e, g + 1);
    SingleEntryCurrent(today, now, metadata, server, b, r, e, g);
    assert entry.Some? && entry.value.outlooks[Label(g + 1)] == payload;
    EntryOfOne(entry.value, g + 1, payload);
  }

  /** With one generated name on the server, the snapshot holds no entry
      other than that of its outlook. */
  lemma SingleOnly<P>(today: string, now: string, metadata: Metadata, server: string -> Outcome<P>, b: nat, r: nat, e: nat, g: nat,
                      d: Day, dt: string, k: string)
    requires ValidDate(today)
    requires b < |Times| && r < |Regions| && e < |Periods| && g < |Versions|
    requires forall x :: server(x).Ok? <==> x == Render(Combo(today, b, r, e, g + 1))
    requires EntryAt(BucketOf(FetchRun(today, now, metadata, server).state.data, d), dt, k).Some?
    ensures (d, dt, k) == ComboLocation(today, b, r, e)
  {
    var b', r', e' := FetchedNothingElse(today, now, metadata, server, d, dt, k);
    FetchedEntry(today, now, metadata, server, b', r', e');
    var v: nat :| Available(today, server, b', r', e', v);
    SingleAvailable(today, server, b, r, e, g, b', r', e', v);
  }

  /** An entry whose labels are those of revisions 1 and 3, at revision 3. */
  lemma EntryOfTwo<P>(en: Entry<P>, p1: P, p3: P)
    requires forall l :: l in en.outlooks <==> l == Label(1) || l == Label(3)
    requires Label(1) in en.outlooks && en.outlooks[Label(1)] == p1
    requires Label(3) in en.outlooks && en.outlooks[Label(3)] == p3
    requires en.currentVersion == 3
    ensures en == Entry(3, map[Label(1) := p1, Label(3) := p3])
  {
    LabelInjective(1, 3);
    assert en.outlooks == map[Label(1) := p1, Label(3) := p3];
  }

  /** With revisions 1 and 3 of an outlook available, its entry holds their labels only. */
  lemma GapLabels<P>(today: string, now: string, metadata: Metadata, server: string -> Outcome<P>, b: nat, r: nat, e: nat)
    requires ValidDate(today)
    requires b < |Times| && r < |Regions| && e < |Periods|
    requires forall v: nat :: Available(today, server, b, r, e, v) <==> v == 1 || v == 3
    ensures var entry := EntryAt(BucketOf(FetchRun(today, now, metadata, server).state.data, DayOf(Periods[e])), today, KeyOf(Combo(today, b, r, e, 0)));
      entry.Some? && forall l :: l in entry.value.outlooks <==> l == Label(1) || l == Label(3)
  {
    var entry := EntryAt(BucketOf(FetchRun(today, now, metadata, server).state.data, DayOf(Periods[e])), today, KeyOf(Combo(today, b, r, e, 0)));
    FetchedEntry(today, now, metadata, server, b, r, e);
    assert Available(today, server, b, r, e, 1) && Available(today, server, b, r, e, 3);
    forall l
      ensures l in entry.value.outlooks <==> l == Label(1) || l == Label(3)
    {
      if l in entry.value.outlooks {
        var v: nat :| Available(today, server, b, r, e, v) && l == Label(v);
        assert v == 1 || v == 3;
      }
    }
  }

  /** ... and is at revision 3. */
  lemma GapCurrent<P>(today: string, now: string, metadata: Metadata, server: string -> Outcome<P>, b: nat, r: nat, e: nat)
    requires ValidDate(today)
    requires b < |Times| && r < |Regions| && e < |Periods|
    requires forall v: nat :: Available(today, server, b, r, e, v) <==> v == 1 || v == 3
    ensures var entry := EntryAt(BucketOf(FetchRun(today, now, metadata, server).state.data, DayOf(Periods[e])), today, KeyOf(Combo(today, b, r, e, 0)));
      entry.Some? && entry.value.currentVersion == 3
  {
    FetchedEntry(today, now, metadata, server, b, r, e);
    assert Available(today, server, b, r, e, 3);
  }

  /** Gaps stay gaps: when revisions 1 and 3 of an outlook are on the
      server and 2 and 4 are not, its entry is at revision 3 and holds
      exactly `{"v1": .., "v3": ..}`. */
  lemma GapKept<P>(today: string, now: string, metadata: Metadata, server: string -> Outcome<P>, b: nat, r: nat, e: nat, p1: P, p3: P)
    requires ValidDate(today)
    requires b < |Times| && r < |Regions| && e < |Periods|
    requires forall v: nat :: Available(today, server, b, r, e, v) <==> v == 1 || v == 3
    requires server(Render(Combo(today, b, r, e, 1))) == Ok(p1)
    requires server(Render(Combo(today, b, r, e, 3))) == Ok(p3)
    ensures EntryAt(BucketOf(FetchRun(today, now, metadata, server).state.data, DayOf(Periods[e])), today, KeyOf(Combo(today, b, r, e, 0)))
         == Some(Entry(3, map[Label(1) := p1, Label(3) := p3]))
  {
    var entry := EntryAt(BucketOf(FetchRun(today, now, metadata, server).state.data, DayOf(Periods[e])), today, KeyOf(Combo(today, b, r, e, 0)));
    assert Available(today, server, b, r, e, 1) && Available(today, server, b, r, e, 3);
    GapLabels(today, now, metadata, server, b, r, e);
    GapCurrent(today, now, metadata, server, b, r, e);
    FetchedPayload(today, now, metadata, server, b, r, e, 1);
    FetchedPayload(today, now, metadata, server, b, r, e, 3);
    EntryOfTwo(entry.value, p1, p3);
  }

  // ---------------------------------------------------------------------
  // One file on the server, spelled out

  /** The run's date, 15 June 2025. */
  const OneDay: string := "20250615"

  /** Revision 1 of the 12-hour outlook of the OSPC/ON pair published at
      17:00Z that day, its constant text split into pieces as in `Render`. */
  const OneFile: string :=
    "20250615" + "T1700Z" + "_" + "MSC" + "_" + "ThunderstormOutlook" + "_" + "OSPC" + "_" + "ON" + "_" + "PT012H00M"
      + "_" + "v" + "1" + ".json"

  /** Its outlook key, with the doubled underscore. */
  const OneKey: string := "20250615T1700Z__OSPC_ON"

  /** The file, its key and its label, spelled out from the tables. */
  lemma OneFileSpelling()
    ensures ValidDate(OneDay)
    ensures Render(Combo(OneDay, 0, 0, 0, 1)) == OneFile
    ensures KeyOf(Combo(OneDay, 0, 0, 0, 0)) == OneKey
    ensures Label(1) == "v1"
    ensures DayOf(Periods[0]) == Day1
  {
    assert DigitChar(1) == '1';
    assert NatToString(1) == "1";
    var c := Candidate(OneDay, "T1700Z", "OSPC", "ON", P12, 1);
    assert Combo(OneDay, 0, 0, 0, 1) == c;
  }

  /** With only that file on the server, the run counts one success and 479
      failures, and `day1` holds its entry at revision 1 with exactly
      `{"v1": payload}`. */
  lemma OneFileRun<P>(now: string, metadata: Metadata, server: string -> Outcome<P>, payload: P)
    requires forall x :: server(x).Ok? <==> x == OneFile
    requires server(OneFile) == Ok(payload)
    ensures FetchRun(OneDay, now, metadata, server).Running?
    ensures FetchRun(OneDay, now, metadata, server).state.successful == 1
    ensures FetchRun(OneDay, now, metadata, server).state.failed == 479
    ensures EntryAt(BucketOf(FetchRun(OneDay, now, metadata, server).state.data, Day1), OneDay, OneKey)
         == Some(Entry(1, map["v1" := payload]))
  {
    OneFileSpelling();
    SingleCounts(OneDay, now, metadata, server, 0, 0, 0, 0);
    SingleEntry(OneDay, now, metadata, server, 0, 0, 0, 0, payload);
  }
}
