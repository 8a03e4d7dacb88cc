/** The control logic of the catalog loop as functions over a run state: the
    duplicate filter, the cut window and midnight flag, the walk over the
    network x station x channel grid with its skip rules, and the per-event
    directory and QuakeML bookkeeping. The waveform and QuakeML library calls
    appear only through their outcomes. */
module Extraction {
  import opened Calendar
  import opened Naming

  const TimeBeforeOrigin := 30
  const TimeAfterOrigin := 180
  const DtDuplicate := 180
  const QuakeMLFile := "quakeml.xml"

  datatype Config = Config(eventDirPath: string, contDataPath: string,
                           networks: seq<string>, stations: seq<string>, channels: seq<string>)

  /** The values the script is configured with; the archive root lies under
      the user's home directory. */
  function ScriptConfig(home: string): Config {
    Config("vernon_event_dirs/", home + "/VOILA/BOLIVAR/XT_download_pick_test/waveforms/",
           ["XT"],
           ["BLOS", "BTBT", "CUBA", "CUPC", "DRKS", "DKSS", "MIPC", "PINA", "SOMB", "SRPC"],
           ["BDH", "BH1", "BH2", "BHZ", "BHE", "BHN"])
  }

  /** One catalog line with its fixed columns parsed; inRegion is the outcome
      of the area-of-interest polygon test on its latitude and longitude. */
  datatype CatalogLine = CatalogLine(time: int, latitude: real, longitude: real, depth: real,
                                     inRegion: bool)

  /** The origin appended to the shared QuakeML event. */
  datatype OriginRecord = OriginRecord(latitude: real, longitude: real, depth: real, time: int)

  function OriginOf(line: CatalogLine): OriginRecord {
    OriginRecord(line.latitude, line.longitude, line.depth, line.time)
  }

  // ---------------------------------------------------------------------------
  // Duplicate test, cut window, midnight flag

  predicate IsDuplicate(prevOrigTime: int, origTime: int) {
    prevOrigTime + DtDuplicate >= origTime
  }

  datatype Window = Window(start: int, end: int)

  function CutWindow(t: int): Window {
    Window(t - TimeBeforeOrigin, t + TimeAfterOrigin)
  }

  /** The flag that decides whether the next day's volume is read: the day of
      month at the window's end differs from the origin's. */
  predicate CrossMidnight(t: int) {
    FieldsOf(t + TimeAfterOrigin).day != FieldsOf(t).day
  }

  /** The flag is set exactly when the window's end falls on the next day,
      that is when the origin lies in the last 180 seconds of its day. */
  lemma CrossMidnightIff(t: int)
    ensures CrossMidnight(t) <==> CutWindow(t).end / SecondsPerDay == t / SecondsPerDay + 1
    ensures CrossMidnight(t) <==> t % SecondsPerDay >= SecondsPerDay - TimeAfterOrigin
  {
    var d := t / SecondsPerDay;
    if t % SecondsPerDay < SecondsPerDay - TimeAfterOrigin {
      assert (t + TimeAfterOrigin) / SecondsPerDay == d;
    } else {
      assert (t + TimeAfterOrigin) / SecondsPerDay == d + 1;
      NextDate(d);
    }
  }

  /** A window that starts on the previous day is not flagged: the previous
      day's volume is never consulted. */
  lemma PreviousDayNeverFlagged(t: int)
    requires t % SecondsPerDay < TimeBeforeOrigin
    ensures CutWindow(t).start / SecondsPerDay == t / SecondsPerDay - 1
    ensures !CrossMidnight(t)
  {
    CrossMidnightIff(t);
  }

  // ---------------------------------------------------------------------------
  // What the loop computes once per event

  /** The values computed from an origin time before the triples are walked:
      the cut window, the midnight flag, the event name, the timestamp the
      segment names carry, and the days of the first and the next day volume. */
  datatype EventContext = EventContext(time: int, window: Window, crossMidnight: bool,
                                       name: string, stamp: string, firstDay: DayRef, nextDay: DayRef)

  function ContextOf(t: int): EventContext {
    var f := FieldsOf(t);
    EventContext(t, CutWindow(t), CrossMidnight(t), EventNameOf(f), StampText(f),
                 DayRefOf(f), DayRefOf(FieldsOf(t + SecondsPerDay)))
  }

  // ---------------------------------------------------------------------------
  // Names

  datatype Triple = Triple(net: string, sta: string, cha: string)

  function EventDir(cfg: Config, name: string): string {
    cfg.eventDirPath + name
  }

  function QuakeMLPath(cfg: Config, name: string): string {
    cfg.eventDirPath + name + "/" + QuakeMLFile
  }

  function SegmentOf(cfg: Config, ev: EventContext, tr: Triple): string {
    SegmentFile(cfg.eventDirPath, ev.name, tr.sta, tr.cha, ev.stamp)
  }

  /** The day volume holding the origin time. */
  function FirstDayVolume(cfg: Config, ev: EventContext, tr: Triple): string {
    VolumeFile(cfg.contDataPath, ev.firstDay, tr.net, tr.sta, tr.cha)
  }

  /** The day volume addressed by the calendar fields of the origin time plus one day. */
  function NextDayVolume(cfg: Config, ev: EventContext, tr: Triple): string {
    VolumeFile(cfg.contDataPath, ev.nextDay, tr.net, tr.sta, tr.cha)
  }

  /** The first volume is the one for the origin's year and day of year. */
  lemma FirstDayVolumeIsOriginDay(cfg: Config, t: int, tr: Triple)
    ensures var f := FieldsOf(t);
      FirstDayVolume(cfg, ContextOf(t), tr) == VolumePath(cfg.contDataPath, f.year, tr.net, tr.sta, tr.cha, f.julday)
  {
  }

  /** The second volume is the one for the following day of the year, or day
      1 of the next year after the year's last day. */
  lemma NextDayVolumeIsFollowingDay(cfg: Config, t: int, tr: Triple)
    ensures var f := FieldsOf(t);
      NextDayVolume(cfg, ContextOf(t), tr) ==
        if f.julday < DaysInYear(f.year)
        then VolumePath(cfg.contDataPath, f.year, tr.net, tr.sta, tr.cha, f.julday + 1)
        else VolumePath(cfg.contDataPath, f.year + 1, tr.net, tr.sta, tr.cha, 1)
  {
    FieldsOneDayLater(t);
  }

  /** A segment lies in its event's directory, and its file name carries the
      event name's timestamp. */
  lemma SegmentNamedAfterEvent(cfg: Config, t: int, tr: Triple)
    ensures var ev := EventName(t);
      |ev| >= 1 && SegmentOf(cfg, ContextOf(t), tr)
        == EventDir(cfg, ev) + "/" + tr.sta + "." + tr.cha + "." + ev[1..] + ".mseed"
  {
    SegmentStampIsEventStamp(cfg.eventDirPath, tr.sta, tr.cha, t);
  }

  // ---------------------------------------------------------------------------
  // The network x station x channel walk of one event

  /** What the waveform library would find: the day-volume files that exist,
      and the (window, triple) pairs whose merged stream raises when sliced
      (IndexError) or whose sliced segment raises when written; either ends
      the run. */
  datatype Archive = Archive(volumes: set<string>, sliceErrors: set<(Window, Triple)>)

  /** Effect of the walk so far: segment files written, day volumes read by
      the run (in order), and whether the slice error path ended the run. */
  datatype Progress = Progress(files: set<string>, readLog: seq<string>, crashed: bool)

  /** A walk starts with an empty event directory, after the reads of the
      earlier events. */
  function StartProgress(earlierReads: seq<string>): Progress {
    Progress({}, earlierReads, false)
  }

  /** One triple: read the first-day volume (skip the triple when it is
      missing); when the midnight flag is set also read the next-day volume
      (its absence is ignored); slice; write the segment. The slice error
      handler names an undefined variable, so an IndexError ends the run. */
  function AttemptTriple(cfg: Config, archive: Archive, ev: EventContext, p: Progress, tr: Triple): Progress {
    if p.crashed then p
    else
      var first := FirstDayVolume(cfg, ev, tr);
      if first !in archive.volumes then p.(readLog := p.readLog + [first])
      else
        var readLog := p.readLog + [first] + (if ev.crossMidnight then [NextDayVolume(cfg, ev, tr)] else []);
        if (ev.window, tr) in archive.sliceErrors then Progress(p.files, readLog, true)
        else Progress(p.files + {SegmentOf(cfg, ev, tr)}, readLog, false)
  }

  function AttemptAll(cfg: Config, archive: Archive, ev: EventContext, p: Progress, trs: seq<Triple>): Progress
    decreases |trs|
  {
    if trs == [] then p
    else AttemptTriple(cfg, archive, ev, AttemptAll(cfg, archive, ev, p, trs[..|trs| - 1]), trs[|trs| - 1])
  }

  function ChannelTriples(net: string, sta: string, chans: seq<string>): seq<Triple>
    decreases |chans|
  {
    if chans == [] then []
    else ChannelTriples(net, sta, chans[..|chans| - 1]) + [Triple(net, sta, chans[|chans| - 1])]
  }

  function StationTriples(net: string, stas: seq<string>, chans: seq<string>): seq<Triple>
    decreases |stas|
  {
    if stas == [] then []
    else StationTriples(net, stas[..|stas| - 1], chans) + ChannelTriples(net, stas[|stas| - 1], chans)
  }

  function NetworkTriples(nets: seq<string>, stas: seq<string>, chans: seq<string>): seq<Triple>
    decreases |nets|
  {
    if nets == [] then []
    else NetworkTriples(nets[..|nets| - 1], stas, chans) + StationTriples(nets[|nets| - 1], stas, chans)
  }

  /** The triples in the order of the nested loops: network, then station, then channel. */
  function Triples(cfg: Config): seq<Triple> {
    NetworkTriples(cfg.networks, cfg.stations, cfg.channels)
  }

  // ---------------------------------------------------------------------------
  // The run

  /** What the run has done so far. dirs maps each event directory to the
      paths of the files in it; mkdirs logs the directories created; quakeml
      maps each QuakeML file written to the catalog it holds, one origin list
      per catalog entry. */
  datatype RunState = RunState(
    lineCount: nat,
    prevOrigTime: int,
    dirs: map<string, set<string>>,
    mkdirs: seq<string>,
    volumeReads: seq<string>,
    origins: seq<OriginRecord>,
    catalogSize: nat,
    quakeml: map<string, seq<seq<OriginRecord>>>,
    halted: bool)

  /** The state before the first line: the previous origin time is epoch 0. */
  function InitialState(dirs: map<string, set<string>>): RunState {
    RunState(0, 0, dirs, [], [], [], 0, map[], false)
  }

  /** A catalog of k entries that are all the one shared event. */
  function Copies(origins: seq<OriginRecord>, k: nat): seq<seq<OriginRecord>> {
    seq(k, _ => origins)
  }

  /** The walk over every triple for the event at origin time t, in a
      directory just created empty, after the given earlier reads. */
  function EventWalk(cfg: Config, archive: Archive, ev: EventContext, earlierReads: seq<string>): Progress {
    AttemptAll(cfg, archive, ev, StartProgress(earlierReads), Triples(cfg))
  }

  /** What follows the walk of an accepted line: the walk's reads and files
      are recorded; a slice error halts the run; a directory left empty is
      removed; otherwise the origin joins the shared event, the event joins
      the catalog, and the catalog is written as QuakeML into the directory. */
  function Conclude(cfg: Config, s: RunState, line: CatalogLine, ev: EventContext, p: Progress): RunState {
    var dir := EventDir(cfg, ev.name);
    var s1 := s.(dirs := s.dirs[dir := p.files], mkdirs := s.mkdirs + [dir], volumeReads := p.readLog);
    if p.crashed then s1.(halted := true)
    else if p.files == {} then s1.(dirs := s.dirs - {dir})
    else
      var origins := s.origins + [OriginOf(line)];
      var qpath := QuakeMLPath(cfg, ev.name);
      s1.(dirs := s.dirs[dir := p.files + {qpath}], origins := origins,
          catalogSize := s.catalogSize + 1,
          quakeml := s.quakeml[qpath := Copies(origins, s.catalogSize + 1)])
  }

  /** An accepted, in-region line: recreate the event directory, walk the
      triples, then conclude. */
  function Materialize(cfg: Config, archive: Archive, s: RunState, line: CatalogLine): RunState {
    var ev := ContextOf(line.time);
    Conclude(cfg, s, line, ev, EventWalk(cfg, archive, ev, s.volumeReads))
  }

  /** One pass of the catalog loop. */
  function StepLine(cfg: Config, archive: Archive, s: RunState, line: CatalogLine): RunState {
    if s.halted then s
    else if IsDuplicate(s.prevOrigTime, line.time) then
      s.(lineCount := s.lineCount + 1, prevOrigTime := line.time)
    else
      var s1 := s.(lineCount := s.lineCount + 1, prevOrigTime := line.time);
      if line.inRegion then Materialize(cfg, archive, s1, line) else s1
  }

  function RunLines(cfg: Config, archive: Archive, s: RunState, lines: seq<CatalogLine>): RunState
    decreases |lines|
  {
    if lines == [] then s
    else StepLine(cfg, archive, RunLines(cfg, archive, s, lines[..|lines| - 1]), lines[|lines| - 1])
  }
}
