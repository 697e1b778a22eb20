/** The classify-and-route run: list the inbox, then for every batch fetch the
    messages, classify each one, map the label to a folder and move the
    message when the folder is not the inbox. Any collaborator error stops the
    run where it happens (the program panics).

    The collaborators (mail store and classifier) are an `Oracle`: the answer
    to the n-th call of each kind. What the run did is a trace of `Event`s. */
module Pipeline {
  import opened Text
  import opened Router
  import opened Batching

  datatype Option<T> = None | Some(value: T)

  /** A fetched message: its store-assigned UID, subject, sender addresses
      and HTML body. */
  datatype Email = Email(uid: nat, subject: string, from: seq<string>, html: string)

  /** The collaborator errors that stop a run. */
  datatype Failure = FetchFailed | ClassifyFailed | MoveFailed

  /** The collaborators' answers, by call number: the messages returned by
      the n-th fetch (or an error), the label returned by the n-th
      classification (or an error), and whether the n-th move succeeds. */
  datatype Oracle = Oracle(
    fetch: nat -> Option<seq<Email>>,
    classify: nat -> Option<string>,
    move: nat -> bool)

  /** What a run does, in order. */
  datatype Event =
    | Fetch(batch: Range, request: seq<nat>)          // a fetch call, made while at `batch`
    | Classify(uid: nat, subject: string, senders: string, body: string)  // a classifier call
    | Classified(uid: nat, category: string)          // the classifier answered `category`
    | Move(uid: nat, folder: string)                  // a move call
    | Keep(uid: nat)                                  // the message is left where it is

  /** The trace so far, how many calls of each kind were made (the index of
      the next answer to use), and the error that stopped the run, if any. */
  datatype RunState = RunState(
    events: seq<Event>,
    fetched: nat,
    classified: nat,
    moved: nat,
    failure: Option<Failure>)

  /** How a run ends: nothing to do, every batch done, or a panic. */
  datatype Outcome = NoNewEmails | AllProcessed | Panicked(failure: Failure)

  const SenderSeparator: string := ","

  const Initial: RunState := RunState([], 0, 0, 0, None)

  /** One message: classify it (with its senders joined by commas), route the
      label, and move it unless the folder is the inbox. */
  function ProcessEmail(e: Email, o: Oracle, s: RunState): (t: RunState)
    requires s.failure.None?
  {
    var asked := s.(events := s.events + [Classify(e.uid, e.subject, Join(e.from, SenderSeparator), e.html)],
                    classified := s.classified + 1);
    match o.classify(s.classified)
    case None => asked.(failure := Some(ClassifyFailed))
    case Some(category) =>
      var folder := MapCategoryToFolder(category);
      var answered := asked.(events := asked.events + [Classified(e.uid, category)]);
      if folder != Inbox then
        var moving := answered.(events := answered.events + [Move(e.uid, folder)], moved := s.moved + 1);
        if o.move(s.moved) then moving else moving.(failure := Some(MoveFailed))
      else
        answered.(events := answered.events + [Keep(e.uid)])
  }

  /** The messages of one fetch, in the order the store returned them, until
      one of them stops the run. */
  function ProcessEmails(emails: seq<Email>, o: Oracle, s: RunState): (t: RunState)
    decreases |emails|
  {
    if |emails| == 0 || s.failure.Some? then s
    else ProcessEmails(emails[1..], o, ProcessEmail(emails[0], o, s))
  }

  /** The batch loop. Every iteration fetches the messages of the WHOLE uid
      list, whatever its batch is, and processes all of them. */
  function ProcessBatches(batches: seq<Range>, uids: seq<nat>, o: Oracle, s: RunState): (t: RunState)
    decreases |batches|
  {
    if |batches| == 0 || s.failure.Some? then s
    else
      var fetching := s.(events := s.events + [Fetch(batches[0], uids)], fetched := s.fetched + 1);
      match o.fetch(s.fetched)
      case None => fetching.(failure := Some(FetchFailed))
      case Some(emails) => ProcessBatches(batches[1..], uids, o, ProcessEmails(emails, o, fetching))
  }

  /** The whole run over the UIDs listed in the inbox. */
  function Run(uids: seq<nat>, o: Oracle): (final: RunState) {
    if |uids| == 0 then Initial else ProcessBatches(Batches(|uids|), uids, o, Initial)
  }

  function Result(uids: seq<nat>, o: Oracle): (outcome: Outcome) {
    if |uids| == 0 then NoNewEmails
    else match Run(uids, o).failure
      case None => AllProcessed
      case Some(f) => Panicked(f)
  }

  /** The body of the per-message loop: join the senders, classify, route,
      and move unless the folder is the inbox. `failure` is the error that
      stops the run, if any; the new trace and counters are those of
      `ProcessEmail`. */
  method HandleEmail(email: Email, o: Oracle, events: seq<Event>, fetched: nat, classified: nat, moved: nat)
    returns (events': seq<Event>, classified': nat, moved': nat, failure: Option<Failure>)
    ensures ProcessEmail(email, o, RunState(events, fetched, classified, moved, None))
            == RunState(events', fetched, classified', moved', failure)
  {
    var senders: seq<string> := [];
    var j := 0;
    while j < |email.from|
      invariant 0 <= j <= |email.from|
      invariant senders == email.from[..j]
    {
      senders := senders + [email.from[j]];
      j := j + 1;
    }
    assert senders == email.from;
    var joined := Join(senders, SenderSeparator);
    events' := events + [Classify(email.uid, email.subject, joined, email.html)];
    moved' := moved;
    var answer := o.classify(classified);
    classified' := classified + 1;
    if answer.None? {
      return events', classified', moved', Some(ClassifyFailed);
    }
    var category := answer.value;
    events' := events' + [Classified(email.uid, category)];
    var folder := MapCategoryToFolder(category);
    if folder != Inbox {
      events' := events' + [Move(email.uid, folder)];
      var ok := o.move(moved);
      moved' := moved + 1;
      if !ok {
        return events', classified', moved', Some(MoveFailed);
      }
    } else {
      events' := events' + [Keep(email.uid)];
    }
    failure := None;
  }

  /** The inner loop over the fetched messages, in the order the store
      returned them; it stops at the first collaborator error. */
  method HandleEmails(emails: seq<Email>, o: Oracle, events: seq<Event>, fetched: nat, classified: nat, moved: nat)
    returns (events': seq<Event>, classified': nat, moved': nat, failure: Option<Failure>)
    ensures ProcessEmails(emails, o, RunState(events, fetched, classified, moved, None))
            == RunState(events', fetched, classified', moved', failure)
  {
    events', classified', moved' := events, classified, moved;
    assert emails[0..] == emails;
    var i := 0;
    while i < |emails|
      invariant 0 <= i <= |emails|
      invariant ProcessEmails(emails[i..], o, RunState(events', fetched, classified', moved', None))
                == ProcessEmails(emails, o, RunState(events, fetched, classified, moved, None))
    {
      ghost var current := RunState(events', fetched, classified', moved', None);
      assert emails[i..][0] == emails[i] && emails[i..][1..] == emails[i + 1..];
      assert ProcessEmails(emails[i..], o, current)
          == ProcessEmails(emails[i + 1..], o, ProcessEmail(emails[i], o, current));
      events', classified', moved', failure := HandleEmail(emails[i], o, events', fetched, classified', moved');
      if failure.Some? {
        return;
      }
      i := i + 1;
    }
    assert emails[|emails|..] == [];
    failure := None;
  }

  /** The processing loop of the program, step by step: it does exactly what
      `Run` describes, and returns early on the first collaborator error. */
  method ProcessMailbox(uids: seq<nat>, o: Oracle) returns (outcome: Outcome, events: seq<Event>)
    ensures outcome == Result(uids, o) && events == Run(uids, o).events
    ensures |uids| == 0 ==> outcome == NoNewEmails && events == []
  {
    events := [];
    if |uids| == 0 {
      return NoNewEmails, events;
    }
    var total := |uids|;
    var fetched, classified, moved := 0, 0, 0;
    var start := 1;
    while start <= total
      invariant 1 <= start
      invariant ProcessBatches(BatchesFrom(start, total), uids, o,
                  RunState(events, fetched, classified, moved, None)) == Run(uids, o)
      decreases total + 1 - start
    {
      var end := start + BatchSize - 1;
      if end > total {
        end := total;
      }
      ghost var before := RunState(events, fetched, classified, moved, None);
      assert BatchesFrom(start, total) == [Range(start, end)] + BatchesFrom(start + BatchSize, total);
      events := events + [Fetch(Range(start, end), uids)];
      var reply := o.fetch(fetched);
      fetched := fetched + 1;
      if reply.None? {
        return Panicked(FetchFailed), events;
      }
      ghost var fetching := RunState(events, fetched, classified, moved, None);
      assert ProcessBatches(BatchesFrom(start, total), uids, o, before)
          == ProcessBatches(BatchesFrom(start + BatchSize, total), uids, o, ProcessEmails(reply.value, o, fetching));
      var failure;
      events, classified, moved, failure := HandleEmails(reply.value, o, events, fetched, classified, moved);
      if failure.Some? {
        ghost var stopped := RunState(events, fetched, classified, moved, failure);
        assert ProcessBatches(BatchesFrom(start + BatchSize, total), uids, o, stopped) == stopped;
        return Panicked(failure.value), events;
      }
      start := start + BatchSize;
    }
    return AllProcessed, events;
  }
}
