/** Snapshots of a replayed symbol (src/production/replay.rs): the replay and the schedule together. */
module Scheduling {
  import opened Wrappers
  import opened Book
  import opened BookRuns
  import opened Observations
  import opened Views
  import opened Snapshot
  import opened Rows
  import opened Runtime

  /** A symbol replayed under a schedule can always be captured: what its observers are shown drives
      the schedule to the end of the day, and every snapshot at T shows the book after exactly the
      rows quoted before T, a group counting as one moment. */
  method CaptureReplay(rt: BookRuntime, scheduled: ScheduledBook, log: seq<Observation>, books: seq<Book>)
    returns (r: Result<(), ViewError>)
    requires rt.Valid() && rt.Shown() && rt.hasCursor && log == rt.log
    requires scheduled.Valid() && scheduled.steps == [] && scheduled.lastQuote.None? && scheduled.cursor.Roomy()
    requires scheduled.config == rt.env.Config()
    requires |books| == |log| && forall i | 0 <= i < |log| :: books[i] == Run(scheduled.config, log[i].steps)
    modifies scheduled, scheduled.cursor
    ensures r.Ok? && Boundaries(scheduled.output) == Grid(scheduled.cursor.day, 0, scheduled.cursor.interval)
    ensures scheduled.steps == rt.steps && Drives(rt.env, scheduled.steps, rt.rows) && Timed(rt.steps, scheduled.times)
    ensures forall i | 0 <= i < |scheduled.output| ::
      LeftLimit(scheduled.config, rt.steps, scheduled.times, scheduled.depth, scheduled.output[i])
  {
    hide Run, Drives, LeftLimit, Grid, Timed, Boundaries, Protocol, NeverBack, Watermark, DirectoryOf;
    hide ScheduledBook.Valid, Ascending;
    r := Schedule(scheduled, log, books);
  }
}
