/** The catalog loop as the script runs it: one Extractor object holds the
    loop's mutable state (the line counter, the previous origin time, the
    file system as far as the run touches it), and the single QuakeML Event
    and Catalog objects that every accepted line updates in place. Each
    method is proved to do what the corresponding function of Extraction
    describes. */
module Pipeline {
  import opened Calendar
  import opened Naming
  import opened Extraction
  import opened ExtractionFacts

  /** The QuakeML event created once before the loop; every accepted line
      appends its origin to it. */
  class Event {
    var origins: seq<OriginRecord>

    constructor ()
      ensures origins == []
    {
      origins := [];
    }

    method AppendOrigin(o: OriginRecord)
      modifies this
      ensures origins == old(origins) + [o]
    {
      origins := origins + [o];
    }
  }

  /** The QuakeML catalog created once before the loop; it holds references
      to events, not copies. */
  class Catalog {
    var events: seq<Event>

    constructor ()
      ensures events == []
    {
      events := [];
    }

    method Append(e: Event)
      modifies this
      ensures events == old(events) + [e]
    {
      events := events + [e];
    }

    /** What writing the catalog stores: the origins each event holds at the
        time of writing. */
    function Contents(): seq<seq<OriginRecord>>
      reads this, events
    {
      seq(|events|, i requires 0 <= i < |events| reads this, events => events[i].origins)
    }
  }

  class Extractor {
    const cfg: Config
    const archive: Archive
    const event: Event
    const catalog: Catalog

    var lineCount: nat
    var prevOrigTime: int
    var dirs: map<string, set<string>>
    var mkdirs: seq<string>
    var volumeReads: seq<string>
    var quakeml: map<string, seq<seq<OriginRecord>>>
    var halted: bool

    /** Every catalog entry is the one shared event. */
    predicate Valid()
      reads this, catalog
    {
      forall i :: 0 <= i < |catalog.events| ==> catalog.events[i] == event
    }

    /** The state of the run in the terms of Extraction. */
    function Abs(): RunState
      reads this, event, catalog
    {
      RunState(lineCount, prevOrigTime, dirs, mkdirs, volumeReads, event.origins, |catalog.events|,
               quakeml, halted)
    }

    /** Sets up the loop: the previous origin time is epoch 0, and the event
        and catalog are new and empty. */
    constructor (cfg: Config, archive: Archive, existing: map<string, set<string>>)
      ensures this.cfg == cfg && this.archive == archive
      ensures Valid() && Abs() == InitialState(existing)
    {
      this.cfg := cfg;
      this.archive := archive;
      event := new Event();
      catalog := new Catalog();
      lineCount := 0;
      prevOrigTime := 0;
      dirs := existing;
      mkdirs := [];
      volumeReads := [];
      quakeml := map[];
      halted := false;
    }

    /** The body of the innermost loop for one triple, when the walk so far
        is p: read the first-day volume, skip the triple when it is missing,
        read the next-day volume when the window crosses midnight, slice,
        write the segment. Returns whether the slice raised. */
    method AttemptOne(ev: EventContext, tr: Triple, ghost p: Progress, ghost base: map<string, set<string>>)
      returns (crashed: bool)
      requires !p.crashed && dirs == base[EventDir(cfg, ev.name) := p.files]
      requires volumeReads == p.readLog
      modifies this`dirs, this`volumeReads
      ensures var q := AttemptTriple(cfg, archive, ev, p, tr);
        && dirs == base[EventDir(cfg, ev.name) := q.files]
        && volumeReads == q.readLog
        && crashed == q.crashed
    {
      var dir := EventDir(cfg, ev.name);
      var first := FirstDayVolume(cfg, ev, tr);
      volumeReads := volumeReads + [first];
      if first !in archive.volumes {
        return false;
      }
      if ev.crossMidnight {
        volumeReads := volumeReads + [NextDayVolume(cfg, ev, tr)];
      }
      if (ev.window, tr) in archive.sliceErrors {
        return true;
      }
      dirs := dirs[dir := dirs[dir] + {SegmentOf(cfg, ev, tr)}];
      assert dirs == base[dir := p.files + {SegmentOf(cfg, ev, tr)}];
      return false;
    }

    /** The innermost loop: every channel of one station. */
    method ChannelLoop(ev: EventContext, net: string, sta: string, ghost p: Progress,
                       ghost base: map<string, set<string>>) returns (crashed: bool)
      requires !p.crashed && dirs == base[EventDir(cfg, ev.name) := p.files]
      requires volumeReads == p.readLog
      modifies this`dirs, this`volumeReads
      ensures var q := AttemptAll(cfg, archive, ev, p, ChannelTriples(net, sta, cfg.channels));
        && dirs == base[EventDir(cfg, ev.name) := q.files]
        && volumeReads == q.readLog
        && crashed == q.crashed
    {
      var C := cfg.channels;
      ghost var dir := EventDir(cfg, ev.name);
      ghost var q := p;
      var c := 0;
      while c < |C|
        invariant 0 <= c <= |C|
        invariant q == AttemptAll(cfg, archive, ev, p, ChannelTriples(net, sta, C[..c])) && !q.crashed
        invariant dirs == base[dir := q.files]
        invariant volumeReads == q.readLog
      {
        var tr := Triple(net, sta, C[c]);
        crashed := AttemptOne(ev, tr, q, base);
        ChannelStep(cfg, archive, ev, p, net, sta, C, c);
        q := AttemptTriple(cfg, archive, ev, q, tr);
        if crashed {
          ChannelCrash(cfg, archive, ev, p, net, sta, C, c);
          return;
        }
        c := c + 1;
      }
      assert C[..c] == C;
      return false;
    }

    /** The middle loop: every station of one network. */
    method StationLoop(ev: EventContext, net: string, ghost p: Progress, ghost base: map<string, set<string>>)
      returns (crashed: bool)
      requires !p.crashed && dirs == base[EventDir(cfg, ev.name) := p.files]
      requires volumeReads == p.readLog
      modifies this`dirs, this`volumeReads
      ensures var q := AttemptAll(cfg, archive, ev, p, StationTriples(net, cfg.stations, cfg.channels));
        && dirs == base[EventDir(cfg, ev.name) := q.files]
        && volumeReads == q.readLog
        && crashed == q.crashed
    {
      var S, C := cfg.stations, cfg.channels;
      ghost var dir := EventDir(cfg, ev.name);
      ghost var q := p;
      var s := 0;
      while s < |S|
        invariant 0 <= s <= |S|
        invariant q == AttemptAll(cfg, archive, ev, p, StationTriples(net, S[..s], C)) && !q.crashed
        invariant dirs == base[dir := q.files]
        invariant volumeReads == q.readLog
      {
        crashed := ChannelLoop(ev, net, S[s], q, base);
        StationStep(cfg, archive, ev, p, net, S, C, s);
        q := AttemptAll(cfg, archive, ev, q, ChannelTriples(net, S[s], C));
        if crashed {
          StationCrash(cfg, archive, ev, p, net, S, C, s);
          return;
        }
        s := s + 1;
      }
      assert S[..s] == S;
      return false;
    }

    /** The outer loop over every network, for an event whose directory has
        just been created empty. Returns whether a slice raised, which ends
        the run. */
    method ExtractSegments(ev: EventContext, ghost base: map<string, set<string>>) returns (crashed: bool)
      requires dirs == base[EventDir(cfg, ev.name) := {}]
      modifies this`dirs, this`volumeReads
      ensures var p := EventWalk(cfg, archive, ev, old(volumeReads));
        && dirs == base[EventDir(cfg, ev.name) := p.files]
        && volumeReads == p.readLog
        && crashed == p.crashed
    {
      var N, S, C := cfg.networks, cfg.stations, cfg.channels;
      ghost var start := StartProgress(volumeReads);
      ghost var dir := EventDir(cfg, ev.name);
      ghost var q := start;
      var n := 0;
      while n < |N|
        invariant 0 <= n <= |N|
        invariant q == AttemptAll(cfg, archive, ev, start, NetworkTriples(N[..n], S, C)) && !q.crashed
        invariant dirs == base[dir := q.files]
        invariant volumeReads == q.readLog
      {
        crashed := StationLoop(ev, N[n], q, base);
        NetworkStep(cfg, archive, ev, start, N, S, C, n);
        q := AttemptAll(cfg, archive, ev, q, StationTriples(N[n], S, C));
        if crashed {
          NetworkCrash(cfg, archive, ev, start, N, S, C, n);
          return;
        }
        n := n + 1;
      }
      assert N[..n] == N;
      return false;
    }

    /** After the walk p of the event ev: halt on a slice error; remove a
        directory left empty; otherwise add the origin to the event, the event
        to the catalog, and write the catalog into the directory. */
    method FinishEvent(line: CatalogLine, ev: EventContext, crashed: bool, ghost s0: RunState, ghost p: Progress)
      requires Valid() && crashed == p.crashed
      requires Abs() == s0.(dirs := s0.dirs[EventDir(cfg, ev.name) := p.files],
                            mkdirs := s0.mkdirs + [EventDir(cfg, ev.name)], volumeReads := p.readLog)
      modifies this, event, catalog
      ensures Valid()
      ensures Abs() == Conclude(cfg, s0, line, ev, p)
    {
      var dir := EventDir(cfg, ev.name);
      if crashed {
        halted := true;
        return;
      }
      if dirs[dir] == {} {
        dirs := dirs - {dir};
        assert dirs == s0.dirs - {dir};
      } else {
        event.AppendOrigin(OriginOf(line));
        catalog.Append(event);
        var qpath := QuakeMLPath(cfg, ev.name);
        dirs := dirs[dir := dirs[dir] + {qpath}];
        var written := catalog.Contents();
        assert written == Copies(event.origins, |catalog.events|);
        quakeml := quakeml[qpath := written];
      }
    }

    /** An accepted line inside the region, with the values computed for its
        origin: recreate the event directory, extract the segments, finish. */
    method MaterializeEvent(line: CatalogLine, ev: EventContext)
      requires Valid() && !halted
      modifies this, event, catalog
      ensures Valid()
      ensures Abs() == Conclude(cfg, old(Abs()), line, ev, EventWalk(cfg, archive, ev, old(volumeReads)))
    {
      var dir := EventDir(cfg, ev.name);
      ghost var s0 := Abs();
      ghost var p := EventWalk(cfg, archive, ev, volumeReads);
      dirs := dirs[dir := {}];
      mkdirs := mkdirs + [dir];
      var crashed := ExtractSegments(ev, s0.dirs);
      FinishEvent(line, ev, crashed, s0, p);
    }

    /** The per-event values: the cut window from 30 seconds before to 180
        seconds after the origin, the midnight flag (set exactly in the last
        180 seconds of the day), the event name with its timestamp, and how
        the origin day and the following day are spelled in day-volume
        names. */
    static method EventAt(t: int) returns (ev: EventContext)
      ensures ev.window == Window(t - 30, t + 180)
      ensures ev.crossMidnight <==> t % SecondsPerDay >= SecondsPerDay - 180
      ensures ev.name == EventName(t) && |ev.name| >= 1 && ev.stamp == ev.name[1..]
      ensures ev.firstDay == DayRef(IntToString(FieldsOf(t).year), IntToString(FieldsOf(t).julday))
      ensures var f := FieldsOf(t);
        ev.nextDay == if f.julday < DaysInYear(f.year) then DayRef(IntToString(f.year), IntToString(f.julday + 1))
                      else DayRef(IntToString(f.year + 1), IntToString(1))
      ensures ev == ContextOf(t)
    {
      var fields := FieldsOf(t);
      var window := Window(t - TimeBeforeOrigin, t + TimeAfterOrigin);
      var crossMidnight := FieldsOf(t + TimeAfterOrigin).day != fields.day;
      var name := EventNameOf(fields);
      var newDate := FieldsOf(t + SecondsPerDay);
      ev := EventContext(t, window, crossMidnight, name, StampText(fields), DayRefOf(fields), DayRefOf(newDate));
      CrossMidnightIff(t);
      FieldsOneDayLater(t);
      assert ("e" + StampText(fields))[1..] == StampText(fields);
    }

    /** One pass of the catalog loop: the duplicate test against the previous
        origin time, the midnight flag, the region test, and for an accepted
        line the event name and the extraction. */
    method ProcessLine(line: CatalogLine)
      requires Valid() && !halted
      modifies this, event, catalog
      ensures Valid()
      ensures Abs() == StepLine(cfg, archive, old(Abs()), line)
    {
      var t := line.time;
      lineCount := lineCount + 1;
      if prevOrigTime + DtDuplicate >= t {
        prevOrigTime := t;
        return;
      }
      prevOrigTime := t;
      if line.inRegion {
        var ev := EventAt(t);
        MaterializeEvent(line, ev);
      }
    }

    /** The loop over all catalog lines; a slice error ends it early. */
    method Run(lines: seq<CatalogLine>)
      requires Valid()
      modifies this, event, catalog
      ensures Valid()
      ensures Abs() == RunLines(cfg, archive, old(Abs()), lines)
    {
      var i := 0;
      while i < |lines| && !halted
        invariant 0 <= i <= |lines|
        invariant Valid()
        invariant Abs() == RunLines(cfg, archive, old(Abs()), lines[..i])
      {
        ProcessLine(lines[i]);
        assert lines[..i + 1][..i] == lines[..i];
        i := i + 1;
      }
      if i < |lines| {
        assert lines == lines[..i] + lines[i..];
        RunAppend(cfg, archive, old(Abs()), lines[..i], lines[i..]);
        RunAfterHalt(cfg, archive, Abs(), lines[i..]);
      } else {
        assert lines[..i] == lines;
      }
    }
  }
}
