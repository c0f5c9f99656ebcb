/** The log of events for user mode, and what a client can learn by replaying it. */
module EventLog {
  import opened SplitTypes

  type Log = seq<Event>

  /** What a client makes of one more event. Error events change no belief. */
  function Believe(before: set<Pid>, e: Event): set<Pid> {
    if e.StartSplitting? then before + {e.pid}
    else if e.StopSplitting? then before - {e.pid}
    else before
  }

  /** Only processes that are not splitting start to, and only those that are stop. */
  predicate Fits(before: set<Pid>, e: Event) {
    && (e.StartSplitting? ==> e.pid !in before)
    && (e.StopSplitting? ==> e.pid in before)
  }

  /** The processes that a client believes to be splitting. */
  function Replay(log: Log): set<Pid> {
    if log == [] then {} else Believe(Replay(log[..|log| - 1]), log[|log| - 1])
  }

  /** Starts and stops of each process alternate, beginning with a start. */
  predicate Alternates(log: Log) {
    log == [] || (Alternates(log[..|log| - 1]) && Fits(Replay(log[..|log| - 1]), log[|log| - 1]))
  }

  predicate Splitting(e: Entry) {
    SplittingEnabled(e.settings.split)
  }

  function SplittingSet(r: Registry): set<Pid> {
    set p | p in r && Splitting(r[p])
  }

  /** The log tells exactly which processes are splitting. */
  ghost predicate Faithful(log: Log, r: Registry) {
    Alternates(log) && Replay(log) == SplittingSet(r)
  }

  /** RealizeAnnounceSettingsChange: the event for one change of settings, if any. */
  function Announcement(pid: Pid, image: ImageName, before: SplitStatus, after: SplitStatus): Option<Event> {
    if SplittingEnabled(after) && !SplittingEnabled(before) then Some(StartSplitting(pid, ByConfig, image))
    else if !SplittingEnabled(after) && SplittingEnabled(before) then Some(StopSplitting(pid, ByConfig, image))
    else None
  }

  function AnnouncementOf(r: Registry, r': Registry, p: Pid): Option<Event>
    requires p in r && p in r'
  {
    Announcement(p, r[p].image, r[p].settings.split, r'[p].settings.split)
  }

  function Subject(e: Event): Pid {
    match e
    case StartSplitting(pid, _, _) => pid
    case StopSplitting(pid, _, _) => pid
    case StartSplittingError(pid, _) => pid
    case StopSplittingError(pid, _) => pid
    case ErrorMessage => NO_PROCESS
  }

  /** `events` announce, in some order, the changes of the processes in `done`, each exactly once. */
  ghost predicate Announces(events: Log, r: Registry, r': Registry, done: set<Pid>)
    requires done <= r.Keys && r.Keys == r'.Keys
  {
    && (forall i, j :: 0 <= i < j < |events| ==> Subject(events[i]) != Subject(events[j]))
    && (forall i :: 0 <= i < |events| ==>
          Subject(events[i]) in done && AnnouncementOf(r, r', Subject(events[i])) == Some(events[i]))
    && (forall p :: p in done && AnnouncementOf(r, r', p).Some? ==> AnnouncementOf(r, r', p).value in events)
  }

  /** One of the first `n` events is about `p`. */
  ghost predicate Told(events: Log, n: nat, p: Pid)
    requires n <= |events|
  {
    exists i :: 0 <= i < n && Subject(events[i]) == p
  }

  lemma ToldStep(events: Log, n: nat, p: Pid)
    requires n < |events|
    ensures Told(events, n + 1, p) <==> Told(events, n, p) || Subject(events[n]) == p
  {
    if i :| 0 <= i < n && Subject(events[i]) == p {
      assert 0 <= i < n + 1;
    }
  }

  /** Whether `p` is splitting once the first `n` announcements are out. */
  ghost predicate SplittingAfter(events: Log, r: Registry, r': Registry, n: nat, p: Pid)
    requires r.Keys == r'.Keys && n <= |events|
  {
    p in r && Splitting(if Told(events, n, p) then r'[p] else r[p])
  }

  /** One more announcement settles its own process and no other. */
  lemma SplittingAfterStep(events: Log, r: Registry, r': Registry, n: nat, p: Pid)
    requires r.Keys == r'.Keys && Announces(events, r, r', r.Keys) && n < |events|
    ensures SplittingAfter(events, r, r', n + 1, p)
            <==> if p == Subject(events[n]) then Splitting(r'[p]) else SplittingAfter(events, r, r', n, p)
    ensures p == Subject(events[n]) ==> SplittingAfter(events, r, r', n, p) == Splitting(r[p])
  {
    hide AnnouncementOf, Splitting;
    ToldStep(events, n, p);
  }

  /** One more event. */
  lemma ReplaySnoc(log: Log, e: Event)
    ensures Replay(log + [e]) == Believe(Replay(log), e)
    ensures Alternates(log + [e]) <==> Alternates(log) && Fits(Replay(log), e)
  {
    assert (log + [e])[..|log|] == log;
  }

  lemma {:induction false} ReplayPrefix(log: Log, events: Log, r: Registry, r': Registry, n: nat)
    requires r.Keys == r'.Keys && Announces(events, r, r', r.Keys) && n <= |events|
    requires Faithful(log, r)
    ensures Alternates(log + events[..n])
    ensures forall p :: p in Replay(log + events[..n]) <==> SplittingAfter(events, r, r', n, p)
  {
    hide Replay, Alternates, Announces, SplittingAfter, SplittingSet;
    if n == 0 {
      assert log + events[..0] == log;
      NothingAnnounced(events, r, r');
    } else {
      var e := events[n - 1];
      ReplayPrefix(log, events, r, r', n - 1);
      assert log + events[..n] == (log + events[..n - 1]) + [e];
      ReplaySnoc(log + events[..n - 1], e);
      AnnouncedEvent(events, r, r', n - 1);
      forall p
        ensures p in Replay(log + events[..n]) <==> SplittingAfter(events, r, r', n, p)
      {
        SplittingAfterStep(events, r, r', n - 1, p);
      }
      SplittingAfterStep(events, r, r', n - 1, Subject(e));
    }
  }

  lemma NothingAnnounced(events: Log, r: Registry, r': Registry)
    requires r.Keys == r'.Keys
    ensures forall p :: SplittingAfter(events, r, r', 0, p) <==> p in SplittingSet(r)
  {
  }

  lemma AnnouncedEvent(events: Log, r: Registry, r': Registry, n: nat)
    requires r.Keys == r'.Keys && Announces(events, r, r', r.Keys) && n < |events|
    ensures Subject(events[n]) in r && AnnouncementOf(r, r', Subject(events[n])) == Some(events[n])
  {
  }

  /** Once everything is announced, a client believes what the new settings are. */
  lemma AllAnnounced(events: Log, r: Registry, r': Registry, p: Pid)
    requires r.Keys == r'.Keys && Announces(events, r, r', r.Keys)
    ensures SplittingAfter(events, r, r', |events|, p) <==> p in SplittingSet(r')
  {
    if p in r && AnnouncementOf(r, r', p).Some? {
      var i :| 0 <= i < |events| && events[i] == AnnouncementOf(r, r', p).value;
      assert Subject(events[i]) == p;
    }
  }

  /** Announcing every change keeps a faithful log faithful. */
  lemma AnnouncesFaithful(log: Log, events: Log, r: Registry, r': Registry)
    requires r.Keys == r'.Keys && Announces(events, r, r', r.Keys)
    requires Faithful(log, r)
    ensures Faithful(log + events, r')
  {
    hide Replay, Alternates, Announces, SplittingAfter, SplittingSet;
    ReplayPrefix(log, events, r, r', |events|);
    assert events[..|events|] == events;
    forall p
      ensures SplittingAfter(events, r, r', |events|, p) <==> p in SplittingSet(r')
    {
      AllAnnounced(events, r, r', p);
    }
  }

  lemma NothingToAnnounce(events: Log, r: Registry, r': Registry)
    requires r.Keys == r'.Keys && Announces(events, r, r', r.Keys)
    requires forall p :: p in r ==> r'[p].settings == r[p].settings
    ensures events == []
  {
    var first := First(events);
  }

  function First(events: Log): Option<Event> {
    if events == [] then None else Some(events[0])
  }

  /** One more process is done, and announced if there is something to announce. */
  lemma AnnouncesStep(events: Log, r: Registry, r': Registry, done: set<Pid>, p: Pid)
    requires r.Keys == r'.Keys && done <= r.Keys && Announces(events, r, r', done)
    requires p in r && p !in done
    ensures var a := AnnouncementOf(r, r', p);
            Announces(events + if a.Some? then [a.value] else [], r, r', done + {p})
  {
    var a := AnnouncementOf(r, r', p);
    if a.Some? {
      var events' := events + [a.value];
      assert events'[|events|] == a.value;
      forall q | q in done && AnnouncementOf(r, r', q).Some?
        ensures AnnouncementOf(r, r', q).value in events'
      {
        assert AnnouncementOf(r, r', q).value in events;
      }
    } else {
      assert events + [] == events;
    }
  }

  // ----- Error messages in between -----

  function ErrorMessages(n: nat): Log {
    seq(n, _ => ErrorMessage)
  }

  /** The number of error messages in a log. */
  function Complaints(log: Log): nat {
    if log == [] then 0
    else Complaints(log[..|log| - 1]) + if log[|log| - 1].ErrorMessage? then 1 else 0
  }

  lemma ComplaintsSnoc(log: Log, e: Event)
    ensures Complaints(log + [e]) == Complaints(log) + if e.ErrorMessage? then 1 else 0
  {
    assert (log + [e])[..|log|] == log;
  }

  lemma {:induction false} ComplaintsMore(log: Log, errors: nat)
    ensures Complaints(log + ErrorMessages(errors)) == Complaints(log) + errors
  {
    if errors == 0 {
      assert log + ErrorMessages(0) == log;
    } else {
      ComplaintsMore(log, errors - 1);
      ComplaintsSnoc(log + ErrorMessages(errors - 1), ErrorMessage);
      assert log + ErrorMessages(errors) == log + ErrorMessages(errors - 1) + [ErrorMessage];
    }
  }

  /** The log has grown by at most `most` error messages, and by nothing else. */
  ghost predicate Complains(log: Log, log': Log, most: nat) {
    && log <= log' && |log'| <= |log| + most
    && forall i :: |log| <= i < |log'| ==> log'[i] == ErrorMessage
  }

  /** The log has grown by at most `most` error messages, and then by the announcements of all changes. */
  ghost predicate AnnouncedFrom(log: Log, log': Log, r: Registry, r': Registry, most: nat, from: nat)
    requires r.Keys == r'.Keys
  {
    && |log| <= from <= |log'|
    && Complains(log, log'[..from], most)
    && Announces(log'[from..], r, r', r.Keys)
  }

  ghost predicate AnnouncedChanges(log: Log, log': Log, r: Registry, r': Registry, most: nat)
    requires r.Keys == r'.Keys
  {
    exists from: nat :: AnnouncedFrom(log, log', r, r', most, from)
  }

  lemma ComplainsFirst(log: Log, errors: nat, most: nat)
    requires errors <= most
    ensures Complains(log, log + ErrorMessages(errors), most)
    ensures errors == 0 ==> log + ErrorMessages(errors) == log
  {
  }

  lemma AnnouncedAfter(log: Log, complained: Log, log': Log, r: Registry, r': Registry, most: nat)
    requires r.Keys == r'.Keys && Complains(log, complained, most)
    requires complained <= log' && Announces(log'[|complained|..], r, r', r.Keys)
    ensures AnnouncedFrom(log, log', r, r', most, |complained|)
    ensures AnnouncedChanges(log, log', r, r', most)
  {
    hide Announces;
    assert log'[..|complained|] == complained;
    assert AnnouncedFrom(log, log', r, r', most, |complained|);
  }

  lemma ComplainsOn(log: Log, log': Log, most: nat, errors: nat, more: nat)
    requires Complains(log, log', most) && errors <= more
    ensures Complains(log, log' + ErrorMessages(errors), most + more)
  {
  }

  /** A client takes no notice of error messages. */
  lemma {:induction false} ComplainsFaithful(log: Log, log': Log, most: nat, r: Registry)
    requires Complains(log, log', most) && Faithful(log, r)
    ensures Faithful(log', r)
    decreases |log'|
  {
    hide Replay, Alternates;
    if |log'| > |log| {
      var init := log'[..|log'| - 1];
      ComplainsFaithful(log, init, most, r);
      assert log' == init + [ErrorMessage];
      ReplaySnoc(init, ErrorMessage);
    } else {
      assert log' == log;
    }
  }

  lemma AnnouncedChangesFaithful(log: Log, log': Log, r: Registry, r': Registry, most: nat)
    requires r.Keys == r'.Keys && AnnouncedChanges(log, log', r, r', most) && Faithful(log, r)
    ensures Faithful(log', r')
  {
    hide Faithful, Announces, Complains;
    var from: nat :| AnnouncedFrom(log, log', r, r', most, from);
    ComplainsFaithful(log, log'[..from], most, r);
    AnnouncesFaithful(log'[..from], log'[from..], r, r');
    assert log' == log'[..from] + log'[from..];
  }

  // ----- Alternation, process by process -----

  /** The starts and stops of one process. */
  function Course(log: Log, p: Pid): Log {
    if log == [] then []
    else
      var e := log[|log| - 1];
      Course(log[..|log| - 1], p)
      + if (e.StartSplitting? || e.StopSplitting?) && e.pid == p then [e] else []
  }

  /** In an alternating log, the course of every process is start, stop, start and so on, and the
      process is splitting exactly after a start. */
  lemma {:induction false} AlternatesPerProcess(log: Log, p: Pid)
    requires Alternates(log)
    ensures forall i :: 0 <= i < |Course(log, p)| ==> (Course(log, p)[i].StartSplitting? <==> i % 2 == 0)
    ensures p in Replay(log) <==> |Course(log, p)| % 2 == 1
    ensures forall e :: e in Course(log, p) ==> e.StartSplitting? || e.StopSplitting?
  {
    if log != [] {
      AlternatesPerProcess(log[..|log| - 1], p);
    }
  }
}
