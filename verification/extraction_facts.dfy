/** What the catalog loop promises: which lines become events, how the
    duplicate state chains, what one event writes and reads, when its
    directory survives, and how the shared QuakeML event and catalog grow. */
module ExtractionFacts {
  import opened Calendar
  import opened Naming
  import opened Extraction

  // ---------------------------------------------------------------------------
  // The triple grid

  lemma {:induction false} ChannelTriplesAppend(net: string, sta: string, a: seq<string>, b: seq<string>)
    ensures ChannelTriples(net, sta, a + b) == ChannelTriples(net, sta, a) + ChannelTriples(net, sta, b)
    decreases |b|
  {
    if b == [] {
      assert a + b == a;
    } else {
      var n := |b| - 1;
      assert (a + b)[..|a + b| - 1] == a + b[..n];
      ChannelTriplesAppend(net, sta, a, b[..n]);
    }
  }

  lemma {:induction false} StationTriplesAppend(net: string, a: seq<string>, b: seq<string>, chans: seq<string>)
    ensures StationTriples(net, a + b, chans) == StationTriples(net, a, chans) + StationTriples(net, b, chans)
    decreases |b|
  {
    if b == [] {
      assert a + b == a;
    } else {
      var n := |b| - 1;
      var ab := a + b;
      assert ab[..|ab| - 1] == a + b[..n];
      assert ab[|ab| - 1] == b[n];
      StationTriplesAppend(net, a, b[..n], chans);
      var X, Y, Z := StationTriples(net, a, chans), StationTriples(net, b[..n], chans), ChannelTriples(net, b[n], chans);
      assert StationTriples(net, ab, chans) == X + Y + Z;
      assert StationTriples(net, b, chans) == Y + Z;
      assert X + Y + Z == X + (Y + Z);
    }
  }

  lemma {:induction false} NetworkTriplesAppend(a: seq<string>, b: seq<string>, stas: seq<string>, chans: seq<string>)
    ensures NetworkTriples(a + b, stas, chans) == NetworkTriples(a, stas, chans) + NetworkTriples(b, stas, chans)
    decreases |b|
  {
    if b == [] {
      assert a + b == a;
    } else {
      var n := |b| - 1;
      var ab := a + b;
      assert ab[..|ab| - 1] == a + b[..n];
      assert ab[|ab| - 1] == b[n];
      NetworkTriplesAppend(a, b[..n], stas, chans);
      var X, Y, Z := NetworkTriples(a, stas, chans), NetworkTriples(b[..n], stas, chans), StationTriples(b[n], stas, chans);
      assert NetworkTriples(ab, stas, chans) == X + Y + Z;
      assert NetworkTriples(b, stas, chans) == Y + Z;
      assert X + Y + Z == X + (Y + Z);
    }
  }

  /** A sequence glued from parts starts with the first part and the start of the second. */
  lemma PrefixOfParts(X: seq<Triple>, Y1: seq<Triple>, Y2: seq<Triple>, R: seq<Triple>)
    ensures X + Y1 <= X + (Y1 + Y2) + R
  {
    assert (X + (Y1 + Y2) + R)[..|X + Y1|] == X + Y1;
  }

  /** The walk of one network splits at station s. */
  lemma StationSplit(net: string, S: seq<string>, C: seq<string>, s: nat)
    requires s < |S|
    ensures StationTriples(net, S, C)
         == StationTriples(net, S[..s], C) + ChannelTriples(net, S[s], C) + StationTriples(net, S[s + 1..], C)
  {
    assert S == S[..s] + [S[s]] + S[s + 1..];
    StationTriplesAppend(net, S[..s] + [S[s]], S[s + 1..], C);
    StationTriplesAppend(net, S[..s], [S[s]], C);
    assert [S[s]][..0] == [];
    assert StationTriples(net, [S[s]], C) == ChannelTriples(net, S[s], C);
  }

  /** The walk of one station lies inside the walk of its network. */
  lemma StationWalkPrefix(net: string, S: seq<string>, C: seq<string>, s: nat, c: nat)
    requires s < |S| && c <= |C|
    ensures StationTriples(net, S[..s], C) + ChannelTriples(net, S[s], C[..c]) <= StationTriples(net, S, C)
  {
    StationSplit(net, S, C, s);
    assert C == C[..c] + C[c..];
    ChannelTriplesAppend(net, S[s], C[..c], C[c..]);
    PrefixOfParts(StationTriples(net, S[..s], C), ChannelTriples(net, S[s], C[..c]),
                  ChannelTriples(net, S[s], C[c..]), StationTriples(net, S[s + 1..], C));
  }

  /** The walk of one network lies inside the whole walk. */
  lemma NetworkWalkPrefix(N: seq<string>, S: seq<string>, C: seq<string>, n: nat, w: seq<Triple>)
    requires n < |N| && w <= StationTriples(N[n], S, C)
    ensures NetworkTriples(N[..n], S, C) + w <= NetworkTriples(N, S, C)
  {
    assert N == N[..n] + [N[n]] + N[n + 1..];
    NetworkTriplesAppend(N[..n] + [N[n]], N[n + 1..], S, C);
    NetworkTriplesAppend(N[..n], [N[n]], S, C);
    assert [N[n]][..0] == [];
    assert NetworkTriples([N[n]], S, C) == StationTriples(N[n], S, C);
  }

  /** The triples walked before channel c of station s of network n are the
      start of the whole walk. */
  lemma WalkPrefix(cfg: Config, n: nat, s: nat, c: nat)
    requires n < |cfg.networks| && s < |cfg.stations| && c <= |cfg.channels|
    ensures NetworkTriples(cfg.networks[..n], cfg.stations, cfg.channels)
          + StationTriples(cfg.networks[n], cfg.stations[..s], cfg.channels)
          + ChannelTriples(cfg.networks[n], cfg.stations[s], cfg.channels[..c])
         <= Triples(cfg)
  {
    var N, S, C := cfg.networks, cfg.stations, cfg.channels;
    var A, B, D := NetworkTriples(N[..n], S, C), StationTriples(N[n], S[..s], C), ChannelTriples(N[n], S[s], C[..c]);
    StationWalkPrefix(N[n], S, C, s, c);
    NetworkWalkPrefix(N, S, C, n, B + D);
    assert A + B + D == A + (B + D);
  }

  lemma {:induction false} ChannelTriplesShape(net: string, sta: string, chans: seq<string>)
    ensures |ChannelTriples(net, sta, chans)| == |chans|
    ensures forall k :: 0 <= k < |chans| ==> ChannelTriples(net, sta, chans)[k] == Triple(net, sta, chans[k])
    decreases |chans|
  {
    if chans != [] {
      ChannelTriplesShape(net, sta, chans[..|chans| - 1]);
    }
  }

  lemma {:induction false} StationTriplesCount(net: string, stas: seq<string>, chans: seq<string>)
    ensures |StationTriples(net, stas, chans)| == |stas| * |chans|
    decreases |stas|
  {
    if stas != [] {
      StationTriplesCount(net, stas[..|stas| - 1], chans);
      ChannelTriplesShape(net, stas[|stas| - 1], chans);
      assert (|stas| - 1) * |chans| + |chans| == |stas| * |chans|;
    }
  }

  /** Every network, station and channel combination is attempted:
      |networks| x |stations| x |channels| attempts in all. */
  lemma {:induction false} TriplesCount(nets: seq<string>, stas: seq<string>, chans: seq<string>)
    ensures |NetworkTriples(nets, stas, chans)| == |nets| * (|stas| * |chans|)
    decreases |nets|
  {
    if nets != [] {
      var k := |stas| * |chans|;
      TriplesCount(nets[..|nets| - 1], stas, chans);
      StationTriplesCount(nets[|nets| - 1], stas, chans);
      assert (|nets| - 1) * k + k == |nets| * k;
    }
  }

  /** Attempts go network by network, station by station, channel by
      channel: the combination (n, s, c) is attempt number
      n * |stations| * |channels| + s * |channels| + c. */
  lemma TripleAt(cfg: Config, n: nat, s: nat, c: nat)
    requires n < |cfg.networks| && s < |cfg.stations| && c < |cfg.channels|
    ensures var k := n * (|cfg.stations| * |cfg.channels|) + s * |cfg.channels| + c;
      k < |Triples(cfg)| && Triples(cfg)[k] == Triple(cfg.networks[n], cfg.stations[s], cfg.channels[c])
  {
    var N, S, C := cfg.networks, cfg.stations, cfg.channels;
    WalkPrefix(cfg, n, s, c + 1);
    ChannelTriplesShape(N[n], S[s], C[..c + 1]);
    TriplesCount(N[..n], S, C);
    StationTriplesCount(N[n], S[..s], C);
    var w := NetworkTriples(N[..n], S, C) + StationTriples(N[n], S[..s], C) + ChannelTriples(N[n], S[s], C[..c + 1]);
    assert |w| - 1 == n * (|S| * |C|) + s * |C| + c;
    assert w[|w| - 1] == Triple(N[n], S[s], C[c]);
    assert Triples(cfg)[|w| - 1] == w[|w| - 1];
  }

  /** The script's configuration makes 1 x 10 x 6 = 60 attempts per event. */
  lemma ScriptAttempts(home: string)
    ensures |Triples(ScriptConfig(home))| == 60
  {
    var cfg := ScriptConfig(home);
    TriplesCount(cfg.networks, cfg.stations, cfg.channels);
  }

  // ---------------------------------------------------------------------------
  // One event's walk

  lemma {:induction false} AttemptAllAppend(cfg: Config, archive: Archive, ev: EventContext, p: Progress,
                                            a: seq<Triple>, b: seq<Triple>)
    ensures AttemptAll(cfg, archive, ev, p, a + b)
         == AttemptAll(cfg, archive, ev, AttemptAll(cfg, archive, ev, p, a), b)
    decreases |b|
  {
    if b == [] {
      assert a + b == a;
    } else {
      var n := |b| - 1;
      assert (a + b)[..|a + b| - 1] == a + b[..n];
      AttemptAllAppend(cfg, archive, ev, p, a, b[..n]);
    }
  }

  /** Once the run has ended, no later triple does anything. */
  lemma {:induction false} AttemptAllAfterCrash(cfg: Config, archive: Archive, ev: EventContext, p: Progress,
                                                trs: seq<Triple>)
    requires p.crashed
    ensures AttemptAll(cfg, archive, ev, p, trs) == p
    decreases |trs|
  {
    if trs != [] {
      AttemptAllAfterCrash(cfg, archive, ev, p, trs[..|trs| - 1]);
    }
  }

  /** A walk that ended the run on a prefix of the triples ends it the same
      way on the whole list. */
  lemma CrashedPrefix(cfg: Config, archive: Archive, ev: EventContext, p: Progress, done: seq<Triple>, all: seq<Triple>)
    requires done <= all && AttemptAll(cfg, archive, ev, p, done).crashed
    ensures AttemptAll(cfg, archive, ev, p, all) == AttemptAll(cfg, archive, ev, p, done)
  {
    assert all == done + all[|done|..];
    AttemptAllAppend(cfg, archive, ev, p, done, all[|done|..]);
    AttemptAllAfterCrash(cfg, archive, ev, AttemptAll(cfg, archive, ev, p, done), all[|done|..]);
  }

  /** One more channel of the innermost loop is one more attempt. */
  lemma ChannelStep(cfg: Config, archive: Archive, ev: EventContext, p: Progress, net: string, sta: string,
                    C: seq<string>, c: nat)
    requires c < |C|
    ensures AttemptAll(cfg, archive, ev, p, ChannelTriples(net, sta, C[..c + 1]))
         == AttemptTriple(cfg, archive, ev, AttemptAll(cfg, archive, ev, p, ChannelTriples(net, sta, C[..c])),
                          Triple(net, sta, C[c]))
  {
    assert C[..c + 1][..c] == C[..c];
    var done := ChannelTriples(net, sta, C[..c]);
    assert ChannelTriples(net, sta, C[..c + 1]) == done + [Triple(net, sta, C[c])];
    assert (done + [Triple(net, sta, C[c])])[..|done|] == done;
  }

  /** A slice error at channel c settles the outcome of the whole station. */
  lemma ChannelCrash(cfg: Config, archive: Archive, ev: EventContext, p: Progress, net: string, sta: string,
                     C: seq<string>, c: nat)
    requires c < |C| && AttemptAll(cfg, archive, ev, p, ChannelTriples(net, sta, C[..c + 1])).crashed
    ensures AttemptAll(cfg, archive, ev, p, ChannelTriples(net, sta, C))
         == AttemptAll(cfg, archive, ev, p, ChannelTriples(net, sta, C[..c + 1]))
  {
    assert C == C[..c + 1] + C[c + 1..];
    ChannelTriplesAppend(net, sta, C[..c + 1], C[c + 1..]);
    CrashedPrefix(cfg, archive, ev, p, ChannelTriples(net, sta, C[..c + 1]), ChannelTriples(net, sta, C));
  }

  /** One more station of the middle loop is one more run of the innermost loop. */
  lemma StationStep(cfg: Config, archive: Archive, ev: EventContext, p: Progress, net: string,
                    S: seq<string>, C: seq<string>, s: nat)
    requires s < |S|
    ensures AttemptAll(cfg, archive, ev, p, StationTriples(net, S[..s + 1], C))
         == AttemptAll(cfg, archive, ev, AttemptAll(cfg, archive, ev, p, StationTriples(net, S[..s], C)),
                       ChannelTriples(net, S[s], C))
  {
    assert S[..s + 1][..s] == S[..s];
    AttemptAllAppend(cfg, archive, ev, p, StationTriples(net, S[..s], C), ChannelTriples(net, S[s], C));
  }

  lemma StationCrash(cfg: Config, archive: Archive, ev: EventContext, p: Progress, net: string,
                     S: seq<string>, C: seq<string>, s: nat)
    requires s < |S| && AttemptAll(cfg, archive, ev, p, StationTriples(net, S[..s + 1], C)).crashed
    ensures AttemptAll(cfg, archive, ev, p, StationTriples(net, S, C))
         == AttemptAll(cfg, archive, ev, p, StationTriples(net, S[..s + 1], C))
  {
    assert S == S[..s + 1] + S[s + 1..];
    StationTriplesAppend(net, S[..s + 1], S[s + 1..], C);
    CrashedPrefix(cfg, archive, ev, p, StationTriples(net, S[..s + 1], C), StationTriples(net, S, C));
  }

  /** One more network of the outer loop is one more run of the middle loop. */
  lemma NetworkStep(cfg: Config, archive: Archive, ev: EventContext, p: Progress,
                    N: seq<string>, S: seq<string>, C: seq<string>, n: nat)
    requires n < |N|
    ensures AttemptAll(cfg, archive, ev, p, NetworkTriples(N[..n + 1], S, C))
         == AttemptAll(cfg, archive, ev, AttemptAll(cfg, archive, ev, p, NetworkTriples(N[..n], S, C)),
                       StationTriples(N[n], S, C))
  {
    assert N[..n + 1][..n] == N[..n];
    AttemptAllAppend(cfg, archive, ev, p, NetworkTriples(N[..n], S, C), StationTriples(N[n], S, C));
  }

  lemma NetworkCrash(cfg: Config, archive: Archive, ev: EventContext, p: Progress,
                     N: seq<string>, S: seq<string>, C: seq<string>, n: nat)
    requires n < |N| && AttemptAll(cfg, archive, ev, p, NetworkTriples(N[..n + 1], S, C)).crashed
    ensures AttemptAll(cfg, archive, ev, p, NetworkTriples(N, S, C))
         == AttemptAll(cfg, archive, ev, p, NetworkTriples(N[..n + 1], S, C))
  {
    assert N == N[..n + 1] + N[n + 1..];
    NetworkTriplesAppend(N[..n + 1], N[n + 1..], S, C);
    CrashedPrefix(cfg, archive, ev, p, NetworkTriples(N[..n + 1], S, C), NetworkTriples(N, S, C));
  }

  /** The segments a walk writes, independent of order: one per triple whose
      first-day volume exists. The next-day volume plays no part. */
  function ExpectedSegments(cfg: Config, archive: Archive, ev: EventContext, trs: seq<Triple>): set<string> {
    set tr | tr in trs && FirstDayVolume(cfg, ev, tr) in archive.volumes :: SegmentOf(cfg, ev, tr)
  }

  /** A walk that does not end the run writes exactly the expected segments. */
  lemma {:induction false} SegmentsWritten(cfg: Config, archive: Archive, ev: EventContext, p: Progress, trs: seq<Triple>)
    requires !AttemptAll(cfg, archive, ev, p, trs).crashed
    ensures AttemptAll(cfg, archive, ev, p, trs).files == p.files + ExpectedSegments(cfg, archive, ev, trs)
    decreases |trs|
  {
    if trs != [] {
      var n := |trs| - 1;
      SegmentsWritten(cfg, archive, ev, p, trs[..n]);
      ExpectedSegmentsSnoc(cfg, archive, ev, trs);
    }
  }

  /** The last triple adds its segment exactly when its first-day volume exists. */
  lemma ExpectedSegmentsSnoc(cfg: Config, archive: Archive, ev: EventContext, trs: seq<Triple>)
    requires trs != []
    ensures var n := |trs| - 1;
      ExpectedSegments(cfg, archive, ev, trs)
        == ExpectedSegments(cfg, archive, ev, trs[..n])
           + (if FirstDayVolume(cfg, ev, trs[n]) in archive.volumes then {SegmentOf(cfg, ev, trs[n])} else {})
  {
    var n := |trs| - 1;
    assert trs == trs[..n] + [trs[n]];
  }

  /** The first-day volume of each triple, in walk order. */
  function FirstDayVolumes(cfg: Config, ev: EventContext, trs: seq<Triple>): seq<string>
    decreases |trs|
  {
    if trs == [] then []
    else FirstDayVolumes(cfg, ev, trs[..|trs| - 1]) + [FirstDayVolume(cfg, ev, trs[|trs| - 1])]
  }

  /** Without the midnight flag a walk reads exactly one volume per triple,
      always the origin day's. */
  lemma {:induction false} OneDayReadsOnly(cfg: Config, archive: Archive, ev: EventContext, p: Progress, trs: seq<Triple>)
    requires !ev.crossMidnight && !AttemptAll(cfg, archive, ev, p, trs).crashed
    ensures AttemptAll(cfg, archive, ev, p, trs).readLog == p.readLog + FirstDayVolumes(cfg, ev, trs)
    decreases |trs|
  {
    if trs != [] {
      OneDayReadsOnly(cfg, archive, ev, p, trs[..|trs| - 1]);
    }
  }

  /** The volumes a flagged walk reads: each triple's first-day volume, and
      its next-day volume right after it when the first one exists. */
  function BothDayVolumes(cfg: Config, archive: Archive, ev: EventContext, trs: seq<Triple>): seq<string>
    decreases |trs|
  {
    if trs == [] then []
    else
      var tr := trs[|trs| - 1];
      BothDayVolumes(cfg, archive, ev, trs[..|trs| - 1]) + [FirstDayVolume(cfg, ev, tr)]
        + (if FirstDayVolume(cfg, ev, tr) in archive.volumes then [NextDayVolume(cfg, ev, tr)] else [])
  }

  /** With the midnight flag the next-day volume is read for exactly the
      triples that were not skipped, whether or not it exists. */
  lemma {:induction false} TwoDayReads(cfg: Config, archive: Archive, ev: EventContext, p: Progress, trs: seq<Triple>)
    requires ev.crossMidnight && !AttemptAll(cfg, archive, ev, p, trs).crashed
    ensures AttemptAll(cfg, archive, ev, p, trs).readLog == p.readLog + BothDayVolumes(cfg, archive, ev, trs)
    decreases |trs|
  {
    if trs != [] {
      var n := |trs| - 1;
      TwoDayReads(cfg, archive, ev, p, trs[..n]);
      var tr := trs[n];
      var A := BothDayVolumes(cfg, archive, ev, trs[..n]);
      var B := [FirstDayVolume(cfg, ev, tr)];
      var C := if FirstDayVolume(cfg, ev, tr) in archive.volumes then [NextDayVolume(cfg, ev, tr)] else [];
      assert p.readLog + A + B + C == p.readLog + (A + B + C);
    }
  }

  /** A triple whose slice would raise: its first-day volume exists and slicing fails. */
  predicate SliceFails(cfg: Config, archive: Archive, ev: EventContext, tr: Triple) {
    FirstDayVolume(cfg, ev, tr) in archive.volumes && (ev.window, tr) in archive.sliceErrors
  }

  /** One triple, in a walk still going: with its first-day volume missing
      it is skipped after that one read, whatever the next-day volume;
      otherwise the next-day volume is read too under the midnight flag, and
      the segment is written unless the slice fails, which ends the run. */
  lemma AttemptTripleOutcome(cfg: Config, archive: Archive, ev: EventContext, p: Progress, tr: Triple)
    requires !p.crashed
    ensures var q := AttemptTriple(cfg, archive, ev, p, tr);
      var first := FirstDayVolume(cfg, ev, tr);
      && (q.crashed <==> SliceFails(cfg, archive, ev, tr))
      && q.files == (if first in archive.volumes && !q.crashed then p.files + {SegmentOf(cfg, ev, tr)} else p.files)
      && q.readLog == p.readLog + [first]
                      + (if first in archive.volumes && ev.crossMidnight then [NextDayVolume(cfg, ev, tr)] else [])
  {
  }

  /** The walk ends the run exactly when some triple's slice fails. */
  lemma {:induction false} CrashIff(cfg: Config, archive: Archive, ev: EventContext, p: Progress, trs: seq<Triple>)
    ensures AttemptAll(cfg, archive, ev, p, trs).crashed
        <==> p.crashed || exists i :: 0 <= i < |trs| && SliceFails(cfg, archive, ev, trs[i])
    decreases |trs|
  {
    if trs != [] {
      var n := |trs| - 1;
      var pre := trs[..n];
      CrashIff(cfg, archive, ev, p, pre);
      var q := AttemptAll(cfg, archive, ev, p, pre);
      var earlier := exists i :: 0 <= i < |pre| && SliceFails(cfg, archive, ev, pre[i]);
      var any := exists i :: 0 <= i < |trs| && SliceFails(cfg, archive, ev, trs[i]);
      assert earlier ==> any by {
        if earlier {
          var i :| 0 <= i < |pre| && SliceFails(cfg, archive, ev, pre[i]);
          assert trs[i] == pre[i];
        }
      }
      assert any ==> earlier || SliceFails(cfg, archive, ev, trs[n]) by {
        if any {
          var i :| 0 <= i < |trs| && SliceFails(cfg, archive, ev, trs[i]);
          if i < n {
            assert pre[i] == trs[i];
          }
        }
      }
      assert AttemptAll(cfg, archive, ev, p, trs).crashed <==> q.crashed || SliceFails(cfg, archive, ev, trs[n]);
    }
  }

  // ---------------------------------------------------------------------------
  // The catalog loop

  lemma {:induction false} RunAppend(cfg: Config, archive: Archive, s: RunState,
                                     a: seq<CatalogLine>, b: seq<CatalogLine>)
    ensures RunLines(cfg, archive, s, a + b) == RunLines(cfg, archive, RunLines(cfg, archive, s, a), b)
    decreases |b|
  {
    if b == [] {
      assert a + b == a;
    } else {
      var n := |b| - 1;
      assert (a + b)[..|a + b| - 1] == a + b[..n];
      RunAppend(cfg, archive, s, a, b[..n]);
    }
  }

  /** After the slice error path has ended the run, no further line is processed. */
  lemma {:induction false} RunAfterHalt(cfg: Config, archive: Archive, s: RunState, lines: seq<CatalogLine>)
    requires s.halted
    ensures RunLines(cfg, archive, s, lines) == s
    decreases |lines|
  {
    if lines != [] {
      RunAfterHalt(cfg, archive, s, lines[..|lines| - 1]);
    }
  }

  /** The origin time line i is compared with: the line before it, whether
      or not that line was kept, or the starting value for the first line. */
  function PrevSeen(start: int, lines: seq<CatalogLine>, i: nat): int
    requires i <= |lines|
  {
    if i == 0 then start else lines[i - 1].time
  }

  predicate DuplicateAt(start: int, lines: seq<CatalogLine>, i: nat)
    requires i < |lines|
  {
    IsDuplicate(PrevSeen(start, lines, i), lines[i].time)
  }

  /** Origin times of the lines that pass both filters, in catalog order. */
  function KeptTimes(start: int, lines: seq<CatalogLine>): seq<int>
    decreases |lines|
  {
    if lines == [] then []
    else
      var n := |lines| - 1;
      KeptTimes(start, lines[..n])
        + (if !DuplicateAt(start, lines, n) && lines[n].inRegion then [lines[n].time] else [])
  }

  function EventDirs(cfg: Config, ts: seq<int>): seq<string>
    decreases |ts|
  {
    if ts == [] then [] else EventDirs(cfg, ts[..|ts| - 1]) + [EventDir(cfg, EventName(ts[|ts| - 1]))]
  }

  lemma EventDirsSnoc(cfg: Config, ts: seq<int>, x: int)
    ensures EventDirs(cfg, ts + [x]) == EventDirs(cfg, ts) + [EventDir(cfg, EventName(x))]
  {
    assert (ts + [x])[..|ts|] == ts;
  }

  /** Concluding an event leaves the line count and the duplicate state alone,
      records the event directory as created, and stops the run exactly when
      the walk crashed. A crashed walk leaves its directory holding the
      segments written so far, possibly none, and writes no QuakeML file; the
      event and the catalog are unchanged. */
  lemma ConcludeBookkeeping(cfg: Config, s: RunState, line: CatalogLine, ev: EventContext, p: Progress)
    ensures var r := Conclude(cfg, s, line, ev, p);
      && r.lineCount == s.lineCount
      && r.prevOrigTime == s.prevOrigTime
      && r.mkdirs == s.mkdirs + [EventDir(cfg, ev.name)]
      && (r.halted <==> s.halted || p.crashed)
    ensures var r := Conclude(cfg, s, line, ev, p);
      p.crashed ==>
        && r.dirs == s.dirs[EventDir(cfg, ev.name) := p.files]
        && r.volumeReads == p.readLog
        && r.quakeml == s.quakeml && r.origins == s.origins && r.catalogSize == s.catalogSize
  {
  }

  /** One pass: the line is counted, becomes the previous origin time, and
      creates its event directory exactly when it passes both filters. */
  lemma StepFollowsReference(cfg: Config, archive: Archive, s: RunState, line: CatalogLine)
    requires !StepLine(cfg, archive, s, line).halted
    ensures var r := StepLine(cfg, archive, s, line);
      && !s.halted
      && r.lineCount == s.lineCount + 1
      && r.prevOrigTime == line.time
      && r.mkdirs == s.mkdirs + (if !IsDuplicate(s.prevOrigTime, line.time) && line.inRegion
                                 then [EventDir(cfg, EventName(line.time))] else [])
  {
    if !s.halted && !IsDuplicate(s.prevOrigTime, line.time) && line.inRegion {
      var s1 := s.(lineCount := s.lineCount + 1, prevOrigTime := line.time);
      var ev := ContextOf(line.time);
      ConcludeBookkeeping(cfg, s1, line, ev, EventWalk(cfg, archive, ev, s1.volumeReads));
      assert ev.name == EventName(line.time);
    }
  }

  /** The stateful loop agrees with the stateless description: after the
      lines, the duplicate state holds the last line's time (kept or not),
      every line was counted, and an event directory was created for exactly
      the lines that are not duplicates of their predecessor and lie in the
      region, in order. */
  lemma {:induction false} RunFollowsReference(cfg: Config, archive: Archive, s: RunState, lines: seq<CatalogLine>)
    requires !RunLines(cfg, archive, s, lines).halted
    ensures var r := RunLines(cfg, archive, s, lines);
      && r.lineCount == s.lineCount + |lines|
      && r.prevOrigTime == PrevSeen(s.prevOrigTime, lines, |lines|)
      && r.mkdirs == s.mkdirs + EventDirs(cfg, KeptTimes(s.prevOrigTime, lines))
    decreases |lines|
  {
    if lines != [] {
      var n := |lines| - 1;
      var r0 := RunLines(cfg, archive, s, lines[..n]);
      StepFollowsReference(cfg, archive, r0, lines[n]);
      RunFollowsReference(cfg, archive, s, lines[..n]);
      BookkeepingSnoc(cfg, s, r0, StepLine(cfg, archive, r0, lines[n]), lines);
    }
  }

  /** The induction step of the bookkeeping, on states alone. */
  lemma BookkeepingSnoc(cfg: Config, s: RunState, r0: RunState, r: RunState, lines: seq<CatalogLine>)
    requires lines != []
    requires var n := |lines| - 1;
      && r0.lineCount == s.lineCount + n
      && r0.prevOrigTime == PrevSeen(s.prevOrigTime, lines[..n], n)
      && r0.mkdirs == s.mkdirs + EventDirs(cfg, KeptTimes(s.prevOrigTime, lines[..n]))
    requires var n := |lines| - 1;
      && r.lineCount == r0.lineCount + 1
      && r.prevOrigTime == lines[n].time
      && r.mkdirs == r0.mkdirs + (if !IsDuplicate(r0.prevOrigTime, lines[n].time) && lines[n].inRegion
                                  then [EventDir(cfg, EventName(lines[n].time))] else [])
    ensures r.lineCount == s.lineCount + |lines|
    ensures r.prevOrigTime == PrevSeen(s.prevOrigTime, lines, |lines|)
    ensures r.mkdirs == s.mkdirs + EventDirs(cfg, KeptTimes(s.prevOrigTime, lines))
  {
    var n := |lines| - 1;
    assert r0.prevOrigTime == PrevSeen(s.prevOrigTime, lines, n);
    KeptDirsSnoc(cfg, s.prevOrigTime, lines);
    var A := EventDirs(cfg, KeptTimes(s.prevOrigTime, lines[..n]));
    var B := if !DuplicateAt(s.prevOrigTime, lines, n) && lines[n].inRegion
             then [EventDir(cfg, EventName(lines[n].time))] else [];
    assert s.mkdirs + A + B == s.mkdirs + (A + B);
  }

  /** The directories of the kept lines grow by the last line's directory
      exactly when that line is kept. */
  lemma KeptDirsSnoc(cfg: Config, start: int, lines: seq<CatalogLine>)
    requires lines != []
    ensures var n := |lines| - 1;
      EventDirs(cfg, KeptTimes(start, lines))
        == EventDirs(cfg, KeptTimes(start, lines[..n]))
           + (if !DuplicateAt(start, lines, n) && lines[n].inRegion
              then [EventDir(cfg, EventName(lines[n].time))] else [])
  {
    var n := |lines| - 1;
    var k0 := KeptTimes(start, lines[..n]);
    if !DuplicateAt(start, lines, n) && lines[n].inRegion {
      EventDirsSnoc(cfg, k0, lines[n].time);
      assert KeptTimes(start, lines) == k0 + [lines[n].time];
    } else {
      assert KeptTimes(start, lines) == k0;
    }
  }

  /** The first line is compared with epoch 0: it is a duplicate exactly
      when its origin is at most 180 seconds after the epoch. */
  lemma FirstLineAgainstEpoch(lines: seq<CatalogLine>)
    requires 1 <= |lines|
    ensures DuplicateAt(InitialState(map[]).prevOrigTime, lines, 0) <==> lines[0].time <= DtDuplicate
  {
  }

  /** Region membership has no say in the duplicate state: two catalogs with
      the same origin times have the same duplicates and leave the same
      previous origin time. */
  lemma DuplicatesIgnoreRegion(cfg: Config, archive: Archive, s: RunState,
                               lines1: seq<CatalogLine>, lines2: seq<CatalogLine>)
    requires |lines1| == |lines2|
    requires forall i :: 0 <= i < |lines1| ==> lines1[i].time == lines2[i].time
    requires !RunLines(cfg, archive, s, lines1).halted && !RunLines(cfg, archive, s, lines2).halted
    ensures RunLines(cfg, archive, s, lines1).prevOrigTime == RunLines(cfg, archive, s, lines2).prevOrigTime
    ensures forall i :: 0 <= i < |lines1| ==>
      (DuplicateAt(s.prevOrigTime, lines1, i) <==> DuplicateAt(s.prevOrigTime, lines2, i))
  {
    RunFollowsReference(cfg, archive, s, lines1);
    RunFollowsReference(cfg, archive, s, lines2);
    SameTimesSameDuplicates(s.prevOrigTime, lines1, lines2);
  }

  /** The duplicate test reads only origin times. */
  lemma SameTimesSameDuplicates(start: int, lines1: seq<CatalogLine>, lines2: seq<CatalogLine>)
    requires |lines1| == |lines2|
    requires forall i :: 0 <= i < |lines1| ==> lines1[i].time == lines2[i].time
    ensures PrevSeen(start, lines1, |lines1|) == PrevSeen(start, lines2, |lines2|)
    ensures forall i :: 0 <= i < |lines1| ==>
      (DuplicateAt(start, lines1, i) <==> DuplicateAt(start, lines2, i))
  {
    var n := |lines1|;
    assert PrevSeen(start, lines1, n) == PrevSeen(start, lines2, n) by {
      if n > 0 {
        assert lines1[n - 1].time == lines2[n - 1].time;
      }
    }
    forall i | 0 <= i < n
      ensures DuplicateAt(start, lines1, i) <==> DuplicateAt(start, lines2, i)
    {
      assert PrevSeen(start, lines1, i) == PrevSeen(start, lines2, i) by {
        if i > 0 {
          assert lines1[i - 1].time == lines2[i - 1].time;
        }
      }
      assert lines1[i].time == lines2[i].time;
    }
  }

  /** Duplicates chain against the most recently seen origin: of three
      origins 150 seconds apart only the first is kept, though the third is
      300 seconds after it. */
  lemma DuplicatesChainOnLastSeen()
    ensures var a, b, c := CatalogLine(200, 0.0, 0.0, 0.0, true), CatalogLine(350, 0.0, 0.0, 0.0, true),
                           CatalogLine(500, 0.0, 0.0, 0.0, true);
      KeptTimes(0, [a, b, c]) == [200]
  {
    var a, b, c := CatalogLine(200, 0.0, 0.0, 0.0, true), CatalogLine(350, 0.0, 0.0, 0.0, true),
                   CatalogLine(500, 0.0, 0.0, 0.0, true);
    assert [a, b, c][..2] == [a, b];
    assert [a, b][..1] == [a];
    assert [a][..0] == [];
    assert !DuplicateAt(0, [a], 0);
    assert KeptTimes(0, [a]) == [200];
    assert DuplicateAt(0, [a, b], 1);
    assert KeptTimes(0, [a, b]) == [200];
    assert DuplicateAt(0, [a, b, c], 2);
  }

  /** A line outside the region only advances the duplicate state and the
      line count: no directory, no read, no QuakeML. */
  lemma OutOfRegionOnlyAdvances(cfg: Config, archive: Archive, s: RunState, line: CatalogLine)
    requires !s.halted && !line.inRegion
    ensures StepLine(cfg, archive, s, line) == s.(lineCount := s.lineCount + 1, prevOrigTime := line.time)
  {
  }

  /** A line at most 180 seconds after the previous origin time only
      advances the duplicate state and the line count: no directory, no
      read, no QuakeML. */
  lemma DuplicateOnlyAdvances(cfg: Config, archive: Archive, s: RunState, line: CatalogLine)
    requires !s.halted && IsDuplicate(s.prevOrigTime, line.time)
    ensures line.time <= s.prevOrigTime + 180
    ensures StepLine(cfg, archive, s, line) == s.(lineCount := s.lineCount + 1, prevOrigTime := line.time)
  {
  }

  /** What an accepted in-region line leaves behind, when the run goes on:
      its directory exists exactly when some segment was written, and then
      holds the expected segments plus the QuakeML file, which holds the
      whole catalog: as many copies of the grown origin list as the catalog
      has entries. The origin is added to the event and the event to the
      catalog exactly then; nothing else on disk changes. */
  lemma EventDirectoryOutcome(cfg: Config, archive: Archive, s: RunState, line: CatalogLine)
    requires !s.halted && !IsDuplicate(s.prevOrigTime, line.time) && line.inRegion
    requires !StepLine(cfg, archive, s, line).halted
    ensures var r := StepLine(cfg, archive, s, line);
      var ev := ContextOf(line.time);
      var dir := EventDir(cfg, ev.name);
      var segs := ExpectedSegments(cfg, archive, ev, Triples(cfg));
      && (dir in r.dirs <==> segs != {})
      && (segs != {} ==>
            && r.dirs[dir] == segs + {QuakeMLPath(cfg, ev.name)}
            && r.origins == s.origins + [OriginOf(line)]
            && r.catalogSize == s.catalogSize + 1
            && r.quakeml == s.quakeml[QuakeMLPath(cfg, ev.name) := Copies(r.origins, r.catalogSize)])
      && (segs == {} ==> r.origins == s.origins && r.catalogSize == s.catalogSize && r.quakeml == s.quakeml)
      && (forall d :: d != dir ==> (d in r.dirs <==> d in s.dirs))
      && (forall d :: d != dir && d in s.dirs ==> r.dirs[d] == s.dirs[d])
  {
    var s1 := s.(lineCount := s.lineCount + 1, prevOrigTime := line.time);
    var ev := ContextOf(line.time);
    var p := EventWalk(cfg, archive, ev, s1.volumeReads);
    assert StepLine(cfg, archive, s, line) == Conclude(cfg, s1, line, ev, p);
    SegmentsWritten(cfg, archive, ev, StartProgress(s.volumeReads), Triples(cfg));
    ConcludeOutcome(cfg, s1, line, ev, p);
  }

  /** The outcome of concluding a walk that went through: the directory is
      kept exactly when the walk wrote something, and then receives the
      QuakeML file while the origin joins the event and the event the
      catalog; other directories are untouched. */
  lemma ConcludeOutcome(cfg: Config, s: RunState, line: CatalogLine, ev: EventContext, p: Progress)
    requires !p.crashed
    ensures var r := Conclude(cfg, s, line, ev, p);
      var dir := EventDir(cfg, ev.name);
      && (dir in r.dirs <==> p.files != {})
      && (p.files != {} ==>
            && r.dirs[dir] == p.files + {QuakeMLPath(cfg, ev.name)}
            && r.origins == s.origins + [OriginOf(line)]
            && r.catalogSize == s.catalogSize + 1
            && r.quakeml == s.quakeml[QuakeMLPath(cfg, ev.name) := Copies(r.origins, r.catalogSize)])
      && (p.files == {} ==> r.origins == s.origins && r.catalogSize == s.catalogSize && r.quakeml == s.quakeml)
      && (forall d :: d != dir ==> (d in r.dirs <==> d in s.dirs))
      && (forall d :: d != dir && d in s.dirs ==> r.dirs[d] == s.dirs[d])
  {
  }

  /** The accumulation the shared event and catalog produce: one catalog
      entry per origin, and every QuakeML file written holds, k times over,
      the first k origins, for some k of at least 1. */
  ghost predicate CatalogConsistent(s: RunState) {
    && s.catalogSize == |s.origins|
    && forall path :: path in s.quakeml ==>
         1 <= |s.quakeml[path]| <= |s.origins|
         && forall j :: 0 <= j < |s.quakeml[path]| ==> s.quakeml[path][j] == s.origins[..|s.quakeml[path]|]
  }

  /** Concluding an event keeps the accumulation: the new origin extends the
      shared list, and the file written holds that many copies of it. */
  lemma ConcludeKeepsCatalogConsistent(cfg: Config, s: RunState, line: CatalogLine, ev: EventContext, p: Progress)
    requires CatalogConsistent(s)
    ensures CatalogConsistent(Conclude(cfg, s, line, ev, p))
  {
    var r := Conclude(cfg, s, line, ev, p);
    if r.origins != s.origins {
      forall path | path in s.quakeml
        ensures s.origins[..|s.quakeml[path]|] == r.origins[..|s.quakeml[path]|]
      {
      }
    }
  }

  lemma StepKeepsCatalogConsistent(cfg: Config, archive: Archive, s: RunState, line: CatalogLine)
    requires CatalogConsistent(s)
    ensures CatalogConsistent(StepLine(cfg, archive, s, line))
  {
    if !s.halted && !IsDuplicate(s.prevOrigTime, line.time) && line.inRegion {
      var s1 := s.(lineCount := s.lineCount + 1, prevOrigTime := line.time);
      var ev := ContextOf(line.time);
      var p := EventWalk(cfg, archive, ev, s1.volumeReads);
      assert StepLine(cfg, archive, s, line) == Conclude(cfg, s1, line, ev, p);
      ConcludeKeepsCatalogConsistent(cfg, s1, line, ev, p);
    }
  }

  /** The accumulation holds across any number of lines. */
  lemma {:induction false} RunKeepsCatalogConsistent(cfg: Config, archive: Archive, s: RunState,
                                                     lines: seq<CatalogLine>)
    requires CatalogConsistent(s)
    ensures CatalogConsistent(RunLines(cfg, archive, s, lines))
    decreases |lines|
  {
    if lines != [] {
      RunKeepsCatalogConsistent(cfg, archive, s, lines[..|lines| - 1]);
      StepKeepsCatalogConsistent(cfg, archive, RunLines(cfg, archive, s, lines[..|lines| - 1]), lines[|lines| - 1]);
    }
  }

  /** Line i leaves an origin behind: it is not a duplicate of its
      predecessor, it lies in the region, and some first-day volume of its
      event exists, so that its directory receives a segment. */
  predicate StoresOrigin(cfg: Config, archive: Archive, start: int, lines: seq<CatalogLine>, i: nat)
    requires i < |lines|
  {
    && !DuplicateAt(start, lines, i)
    && lines[i].inRegion
    && ExpectedSegments(cfg, archive, ContextOf(lines[i].time), Triples(cfg)) != {}
  }

  /** The origins of the lines that leave one behind, in catalog order. */
  function StoredOrigins(cfg: Config, archive: Archive, start: int, lines: seq<CatalogLine>): seq<OriginRecord>
    decreases |lines|
  {
    if lines == [] then []
    else
      var n := |lines| - 1;
      StoredOrigins(cfg, archive, start, lines[..n])
        + (if StoresOrigin(cfg, archive, start, lines, n) then [OriginOf(lines[n])] else [])
  }

  /** One line adds its origin to the event, and the event to the catalog,
      exactly when it passes both filters and its directory receives a
      segment. */
  lemma StepStoresOrigin(cfg: Config, archive: Archive, s: RunState, line: CatalogLine)
    requires !StepLine(cfg, archive, s, line).halted
    ensures var r := StepLine(cfg, archive, s, line);
      var stores := !IsDuplicate(s.prevOrigTime, line.time) && line.inRegion
                    && ExpectedSegments(cfg, archive, ContextOf(line.time), Triples(cfg)) != {};
      && r.origins == s.origins + (if stores then [OriginOf(line)] else [])
      && r.catalogSize == s.catalogSize + (if stores then 1 else 0)
  {
    if !s.halted && !IsDuplicate(s.prevOrigTime, line.time) && line.inRegion {
      EventDirectoryOutcome(cfg, archive, s, line);
    }
  }

  /** Over a run that goes on, the shared event gains exactly the origins
      of the lines whose directory received a segment, in catalog order, and
      the catalog one entry for each of them. */
  lemma {:induction false} RunStoresOrigins(cfg: Config, archive: Archive, s: RunState, lines: seq<CatalogLine>)
    requires !RunLines(cfg, archive, s, lines).halted
    ensures var r := RunLines(cfg, archive, s, lines);
      && r.origins == s.origins + StoredOrigins(cfg, archive, s.prevOrigTime, lines)
      && r.catalogSize == s.catalogSize + |StoredOrigins(cfg, archive, s.prevOrigTime, lines)|
    decreases |lines|
  {
    if lines != [] {
      var n := |lines| - 1;
      var r0 := RunLines(cfg, archive, s, lines[..n]);
      StepFollowsReference(cfg, archive, r0, lines[n]);
      RunStoresOrigins(cfg, archive, s, lines[..n]);
      RunFollowsReference(cfg, archive, s, lines[..n]);
      assert r0.prevOrigTime == PrevSeen(s.prevOrigTime, lines, n);
      StepStoresOrigin(cfg, archive, r0, lines[n]);
      var A := StoredOrigins(cfg, archive, s.prevOrigTime, lines[..n]);
      var B := if StoresOrigin(cfg, archive, s.prevOrigTime, lines, n) then [OriginOf(lines[n])] else [];
      assert s.origins + A + B == s.origins + (A + B);
    }
  }
}
