/** Properties of the classify-and-route run: what its trace may contain, how
    an error ends it, and how often the inbox is fetched. */
module PipelineProps {
  import opened Text
  import opened Router
  import opened Batching
  import opened Pipeline

  /** The event that follows a classifier answer: a move to the routed folder,
      or keeping the message when that folder is the inbox. */
  function Decision(uid: nat, category: string): (event: Event) {
    var folder := MapCategoryToFolder(category);
    if folder != Inbox then Move(uid, folder) else Keep(uid)
  }

  /** Every answer comes right after the call for the same message, and is
      followed right away by its decision. */
  ghost predicate AnswersDecided(events: seq<Event>) {
    forall i :: 0 <= i < |events| && events[i].Classified? ==>
      0 < i && events[i - 1].Classify? && events[i - 1].uid == events[i].uid &&
      i + 1 < |events| && events[i + 1] == Decision(events[i].uid, events[i].category)
  }

  /** Every move comes right after an answer for the same message, goes to
      the folder that answer routes to, and that folder is not the inbox. */
  ghost predicate MovesAnswered(events: seq<Event>) {
    forall i :: 0 <= i < |events| && events[i].Move? ==>
      0 < i && events[i - 1].Classified? && events[i - 1].uid == events[i].uid &&
      events[i].folder == MapCategoryToFolder(events[i - 1].category) && events[i].folder != Inbox
  }

  /** Every fetch asks for the whole UID list, not for its batch. */
  ghost predicate FetchesWholeList(events: seq<Event>, uids: seq<nat>) {
    forall i :: 0 <= i < |events| && events[i].Fetch? ==> events[i].request == uids
  }

  ghost predicate WellFormed(events: seq<Event>, uids: seq<nat>) {
    AnswersDecided(events) && MovesAnswered(events) && FetchesWholeList(events, uids)
  }

  /** A stopped run stopped at its last call, and the answer to that call was
      an error. */
  ghost predicate StoppedAtLastCall(s: RunState, o: Oracle) {
    match s.failure
    case None => true
    case Some(FetchFailed) =>
      |s.events| > 0 && s.events[|s.events| - 1].Fetch? && s.fetched > 0 && o.fetch(s.fetched - 1).None?
    case Some(ClassifyFailed) =>
      |s.events| > 0 && s.events[|s.events| - 1].Classify? && s.classified > 0 && o.classify(s.classified - 1).None?
    case Some(MoveFailed) =>
      |s.events| > 0 && s.events[|s.events| - 1].Move? && s.moved > 0 && !o.move(s.moved - 1)
  }

  /** The batches named by the fetch events, in order. */
  function FetchedBatches(events: seq<Event>): (batches: seq<Range>) {
    if |events| == 0 then []
    else (if events[0].Fetch? then [events[0].batch] else []) + FetchedBatches(events[1..])
  }

  /** The messages handed to the classifier, in order. */
  function ClassifyCalls(events: seq<Event>): (calls: seq<nat>) {
    if |events| == 0 then []
    else (if events[0].Classify? then [events[0].uid] else []) + ClassifyCalls(events[1..])
  }

  /** The messages handed to the move call, in order. */
  function MoveCalls(events: seq<Event>): (moves: seq<nat>) {
    if |events| == 0 then []
    else (if events[0].Move? then [events[0].uid] else []) + MoveCalls(events[1..])
  }

  function UidsOf(emails: seq<Email>): (uids: seq<nat>) {
    seq(|emails|, i requires 0 <= i < |emails| => emails[i].uid)
  }

  // ---------------------------------------------------------------------
  // Appending to traces

  lemma {:induction false} FetchedBatchesAppend(a: seq<Event>, b: seq<Event>)
    ensures FetchedBatches(a + b) == FetchedBatches(a) + FetchedBatches(b)
    decreases |a|
  {
    if |a| > 0 {
      assert (a + b)[1..] == a[1..] + b;
      FetchedBatchesAppend(a[1..], b);
    } else {
      assert a + b == b;
    }
  }

  lemma {:induction false} ClassifyCallsAppend(a: seq<Event>, b: seq<Event>)
    ensures ClassifyCalls(a + b) == ClassifyCalls(a) + ClassifyCalls(b)
    decreases |a|
  {
    if |a| > 0 {
      assert (a + b)[1..] == a[1..] + b;
      ClassifyCallsAppend(a[1..], b);
    } else {
      assert a + b == b;
    }
  }

  lemma {:induction false} MoveCallsAppend(a: seq<Event>, b: seq<Event>)
    ensures MoveCalls(a + b) == MoveCalls(a) + MoveCalls(b)
    decreases |a|
  {
    if |a| > 0 {
      assert (a + b)[1..] == a[1..] + b;
      MoveCallsAppend(a[1..], b);
    } else {
      assert a + b == b;
    }
  }

  lemma {:induction false} NoFetchNoBatches(b: seq<Event>)
    requires forall i :: 0 <= i < |b| ==> !b[i].Fetch?
    ensures FetchedBatches(b) == []
    decreases |b|
  {
    if |b| > 0 {
      NoFetchNoBatches(b[1..]);
    }
  }

  /** Well-formedness survives appending a well-formed block that does not
      start with an answer or a move. */
  lemma AppendWellFormed(a: seq<Event>, b: seq<Event>, uids: seq<nat>)
    requires WellFormed(a, uids) && WellFormed(b, uids)
    requires |b| > 0 ==> !b[0].Classified? && !b[0].Move?
    ensures WellFormed(a + b, uids)
  {
    var ab := a + b;
    forall i | 0 <= i < |ab| && ab[i].Classified?
      ensures 0 < i && ab[i - 1].Classify? && ab[i - 1].uid == ab[i].uid &&
              i + 1 < |ab| && ab[i + 1] == Decision(ab[i].uid, ab[i].category)
    {
      if i < |a| {
        assert a[i].Classified?;
      } else {
        assert b[i - |a|].Classified?;
      }
    }
    forall i | 0 <= i < |ab| && ab[i].Move?
      ensures 0 < i && ab[i - 1].Classified? && ab[i - 1].uid == ab[i].uid &&
              ab[i].folder == MapCategoryToFolder(ab[i - 1].category) && ab[i].folder != Inbox
    {
      if i < |a| {
        assert a[i].Move?;
      } else {
        assert b[i - |a|].Move?;
      }
    }
    forall i | 0 <= i < |ab| && ab[i].Fetch?
      ensures ab[i].request == uids
    {
      if i < |a| {
        assert a[i].Fetch?;
      } else {
        assert b[i - |a|].Fetch?;
      }
    }
  }

  // ---------------------------------------------------------------------
  // One message

  /** What one message adds to the trace: the classifier call with the
      senders joined by commas, then (on an answer) the answer and its
      decision. */
  function EmailBlock(e: Email, answer: Option<string>): (block: seq<Event>) {
    [Classify(e.uid, e.subject, Join(e.from, SenderSeparator), e.html)] +
    match answer
    case None => []
    case Some(category) => [Classified(e.uid, category), Decision(e.uid, category)]
  }

  /** Handling a message appends its block to the trace and fetches nothing;
      if it stops the run, it stops at its last call. */
  lemma ProcessEmailShape(e: Email, o: Oracle, s: RunState)
    requires s.failure.None?
    ensures ProcessEmail(e, o, s).events == s.events + EmailBlock(e, o.classify(s.classified))
    ensures ProcessEmail(e, o, s).fetched == s.fetched
    ensures StoppedAtLastCall(ProcessEmail(e, o, s), o)
  {
    var call := Classify(e.uid, e.subject, Join(e.from, SenderSeparator), e.html);
    var t := ProcessEmail(e, o, s);
    match o.classify(s.classified)
    case None =>
      assert EmailBlock(e, None) == [call];
    case Some(category) =>
      var decision := Decision(e.uid, category);
      assert EmailBlock(e, Some(category)) == [call, Classified(e.uid, category), decision];
      assert t.events == s.events + [call] + [Classified(e.uid, category)] + [decision];
      assert s.events + [call] + [Classified(e.uid, category)] + [decision]
          == s.events + [call, Classified(e.uid, category), decision];
  }

  /** A message's block is well-formed on its own, calls the classifier once
      for that message, and fetches nothing. */
  lemma EmailBlockFacts(e: Email, answer: Option<string>, uids: seq<nat>)
    ensures var block := EmailBlock(e, answer);
      WellFormed(block, uids) && block[0].Classify? &&
      ClassifyCalls(block) == [e.uid] &&
      forall i :: 0 <= i < |block| ==> !block[i].Fetch?
  {
    var block := EmailBlock(e, answer);
    match answer
    case None =>
      assert block[1..] == [];
    case Some(category) =>
      assert block == [block[0], Classified(e.uid, category), Decision(e.uid, category)];
      assert block[1..][1..][1..] == [];
      assert ClassifyCalls(block[1..][1..]) == [];
      assert ClassifyCalls(block[1..]) == [];
  }

  lemma ConcatAssoc<T>(a: seq<T>, b: seq<T>, c: seq<T>)
    ensures (a + b) + c == a + (b + c)
  {
  }

  lemma PrefixTrans<T>(a: seq<T>, b: seq<T>, c: seq<T>)
    requires a <= b && b <= c
    ensures a <= c
  {
  }

  // ---------------------------------------------------------------------
  // One pass over the fetched messages

  /** A pass keeps the trace it started from, fetches nothing, keeps the
      trace well-formed and stops at its last call. */
  lemma {:induction false} ProcessEmailsKeeps(es: seq<Email>, o: Oracle, s: RunState, uids: seq<nat>)
    requires WellFormed(s.events, uids) && StoppedAtLastCall(s, o)
    ensures var t := ProcessEmails(es, o, s);
      s.events <= t.events && t.fetched == s.fetched &&
      WellFormed(t.events, uids) && StoppedAtLastCall(t, o)
    decreases |es|
  {
    if |es| > 0 && s.failure.None? {
      var s1 := ProcessEmail(es[0], o, s);
      var block := EmailBlock(es[0], o.classify(s.classified));
      ProcessEmailShape(es[0], o, s);
      EmailBlockFacts(es[0], o.classify(s.classified), uids);
      AppendWellFormed(s.events, block, uids);
      ProcessEmailsKeeps(es[1..], o, s1, uids);
      var t := ProcessEmails(es, o, s);
      assert t == ProcessEmails(es[1..], o, s1);
      PrefixTrans(s.events, s1.events, t.events);
    }
  }

  /** A pass fetches nothing. */
  lemma {:induction false} ProcessEmailsFetchNothing(es: seq<Email>, o: Oracle, s: RunState)
    ensures FetchedBatches(ProcessEmails(es, o, s).events) == FetchedBatches(s.events)
    decreases |es|
  {
    if |es| > 0 && s.failure.None? {
      var s1 := ProcessEmail(es[0], o, s);
      var block := EmailBlock(es[0], o.classify(s.classified));
      ProcessEmailShape(es[0], o, s);
      EmailBlockFacts(es[0], o.classify(s.classified), []);
      NoFetchNoBatches(block);
      FetchedBatchesAppend(s.events, block);
      ProcessEmailsFetchNothing(es[1..], o, s1);
      assert ProcessEmails(es, o, s) == ProcessEmails(es[1..], o, s1);
    }
  }

  /** Handling a message calls the classifier once, for that message. */
  lemma ClassifiesOnce(e: Email, o: Oracle, s: RunState)
    requires s.failure.None?
    ensures ClassifyCalls(ProcessEmail(e, o, s).events) == ClassifyCalls(s.events) + [e.uid]
  {
    ProcessEmailShape(e, o, s);
    EmailBlockFacts(e, o.classify(s.classified), []);
    ClassifyCallsAppend(s.events, EmailBlock(e, o.classify(s.classified)));
  }

  lemma UidsOfCons(es: seq<Email>, k: nat)
    requires k < |es|
    ensures UidsOf(es[..k + 1]) == [es[0].uid] + UidsOf(es[1..][..k])
  {
    assert es[..k + 1] == [es[0]] + es[1..][..k];
  }

  /** The messages of a pass are classified in the order the store returned
      them, each once; a stop leaves the rest unclassified, and a pass that
      does not stop classifies all of them. */
  lemma {:induction false} PassInOrder(es: seq<Email>, o: Oracle, s: RunState)
    requires s.failure.None?
    ensures var t := ProcessEmails(es, o, s);
      exists k :: 0 <= k <= |es| &&
        ClassifyCalls(t.events) == ClassifyCalls(s.events) + UidsOf(es[..k]) &&
        (t.failure.None? ==> k == |es|)
    decreases |es|
  {
    var t := ProcessEmails(es, o, s);
    if |es| == 0 {
      assert UidsOf(es[..0]) == [];
      assert ClassifyCalls(t.events) == ClassifyCalls(s.events) + UidsOf(es[..0]);
    } else {
      var e := es[0];
      var s1 := ProcessEmail(e, o, s);
      ClassifiesOnce(e, o, s);
      assert t == ProcessEmails(es[1..], o, s1);
      if s1.failure.Some? {
        assert t == s1;
        assert UidsOf(es[..1]) == [e.uid];
        assert ClassifyCalls(t.events) == ClassifyCalls(s.events) + UidsOf(es[..1]);
      } else {
        PassInOrder(es[1..], o, s1);
        var k :| 0 <= k <= |es[1..]| &&
          ClassifyCalls(t.events) == ClassifyCalls(s1.events) + UidsOf(es[1..][..k]) &&
          (t.failure.None? ==> k == |es[1..]|);
        var before, rest := ClassifyCalls(s.events), UidsOf(es[1..][..k]);
        UidsOfCons(es, k);
        ConcatAssoc(before, [e.uid], rest);
      }
    }
  }

  // ---------------------------------------------------------------------
  // The batch loop and the whole run

  lemma {:induction false} ProcessBatchesKeeps(batches: seq<Range>, uids: seq<nat>, o: Oracle, s: RunState)
    requires WellFormed(s.events, uids) && StoppedAtLastCall(s, o)
    ensures var t := ProcessBatches(batches, uids, o, s);
      s.events <= t.events && WellFormed(t.events, uids) && StoppedAtLastCall(t, o)
    decreases |batches|
  {
    if |batches| > 0 && s.failure.None? {
      var fetching := s.(events := s.events + [Fetch(batches[0], uids)], fetched := s.fetched + 1);
      AppendWellFormed(s.events, [Fetch(batches[0], uids)], uids);
      match o.fetch(s.fetched)
      case None =>
      case Some(emails) =>
        var passed := ProcessEmails(emails, o, fetching);
        ProcessEmailsKeeps(emails, o, fetching, uids);
        ProcessBatchesKeeps(batches[1..], uids, o, passed);
        var t := ProcessBatches(batches, uids, o, s);
        assert t == ProcessBatches(batches[1..], uids, o, passed);
        PrefixTrans(fetching.events, passed.events, t.events);
        PrefixTrans(s.events, fetching.events, t.events);
    }
  }

  /** A batch loop that does not stop fetches once per batch, in order. */
  lemma {:induction false} ProcessBatchesFetches(batches: seq<Range>, uids: seq<nat>, o: Oracle, s: RunState)
    requires s.failure.None? && ProcessBatches(batches, uids, o, s).failure.None?
    ensures FetchedBatches(ProcessBatches(batches, uids, o, s).events) == FetchedBatches(s.events) + batches
    decreases |batches|
  {
    if |batches| > 0 {
      var fetching := s.(events := s.events + [Fetch(batches[0], uids)], fetched := s.fetched + 1);
      FetchedBatchesAppend(s.events, [Fetch(batches[0], uids)]);
      assert FetchedBatches([Fetch(batches[0], uids)]) == [batches[0]];
      var emails := o.fetch(s.fetched).value;
      var passed := ProcessEmails(emails, o, fetching);
      ProcessEmailsFetchNothing(emails, o, fetching);
      assert ProcessBatches(batches, uids, o, s) == ProcessBatches(batches[1..], uids, o, passed);
      ProcessBatchesFetches(batches[1..], uids, o, passed);
      ConcatAssoc(FetchedBatches(s.events), [batches[0]], batches[1..]);
      assert batches == [batches[0]] + batches[1..];
    }
  }

  /** The trace of every run is well-formed:
      - each classifier answer is followed by a move to exactly the folder
        the router gives for it when that folder is not the inbox, and by
        keeping the message otherwise;
      - each move follows such an answer for the same message, so a message
        is moved at most once per classification;
      - every fetch asks for the whole UID list.
      A run that stops, stops at the call whose answer was an error. */
  lemma RunWellFormed(uids: seq<nat>, o: Oracle)
    ensures WellFormed(Run(uids, o).events, uids)
    ensures StoppedAtLastCall(Run(uids, o), o)
  {
    if |uids| > 0 {
      ProcessBatchesKeeps(Batches(|uids|), uids, o, Initial);
    }
  }

  /** A run that completes fetches once per batch (ceil(N / 50) times, by
      `BatchCount`), going through the batches 1..50, 51..100, ... in order. */
  lemma CompletedRunFetchesEachBatch(uids: seq<nat>, o: Oracle)
    requires Result(uids, o) == AllProcessed
    ensures FetchedBatches(Run(uids, o).events) == Batches(|uids|)
  {
    ProcessBatchesFetches(Batches(|uids|), uids, o, Initial);
  }

  /** `xs` repeated `n` times. */
  function Repeat(xs: seq<nat>, n: nat): (repeated: seq<nat>) {
    if n == 0 then [] else xs + Repeat(xs, n - 1)
  }

  lemma {:induction false} ProcessBatchesRepeat(batches: seq<Range>, uids: seq<nat>, o: Oracle, s: RunState, emails: seq<Email>)
    requires forall n :: o.fetch(n) == Some(emails)
    requires s.failure.None? && ProcessBatches(batches, uids, o, s).failure.None?
    ensures ClassifyCalls(ProcessBatches(batches, uids, o, s).events)
            == ClassifyCalls(s.events) + Repeat(UidsOf(emails), |batches|)
    decreases |batches|
  {
    if |batches| == 0 {
      assert ClassifyCalls(s.events) + [] == ClassifyCalls(s.events);
    } else {
      var fetching := s.(events := s.events + [Fetch(batches[0], uids)], fetched := s.fetched + 1);
      ClassifyCallsAppend(s.events, [Fetch(batches[0], uids)]);
      assert ClassifyCalls([Fetch(batches[0], uids)]) == [];
      assert ClassifyCalls(fetching.events) == ClassifyCalls(s.events);
      assert o.fetch(s.fetched) == Some(emails);
      var passed := ProcessEmails(emails, o, fetching);
      assert ProcessBatches(batches, uids, o, s) == ProcessBatches(batches[1..], uids, o, passed);
      assert passed.failure.None?;
      PassInOrder(emails, o, fetching);
      assert emails[..|emails|] == emails;
      assert ClassifyCalls(passed.events) == ClassifyCalls(s.events) + UidsOf(emails);
      ProcessBatchesRepeat(batches[1..], uids, o, passed, emails);
      ConcatAssoc(ClassifyCalls(s.events), UidsOf(emails), Repeat(UidsOf(emails), |batches| - 1));
    }
  }

  /** Every batch iteration fetches the whole UID list, so with a store that
      answers each fetch with the same messages, a run that completes hands
      every message to the classifier once per batch, ceil(N / 50) times in
      all by `BatchCount`. */
  lemma EachMessageClassifiedPerBatch(uids: seq<nat>, emails: seq<Email>, classify: nat -> Option<string>, move: nat -> bool)
    requires |uids| > 0 && Run(uids, Oracle(n => Some(emails), classify, move)).failure.None?
    ensures ClassifyCalls(Run(uids, Oracle(n => Some(emails), classify, move)).events)
            == Repeat(UidsOf(emails), |Batches(|uids|)|)
  {
    var o := Oracle(n => Some(emails), classify, move);
    ProcessBatchesRepeat(Batches(|uids|), uids, o, Initial, emails);
    assert ClassifyCalls(Initial.events) + Repeat(UidsOf(emails), |Batches(|uids|)|)
        == Repeat(UidsOf(emails), |Batches(|uids|)|);
  }

  /** An empty inbox makes no call at all. */
  lemma EmptyInboxDoesNothing(o: Oracle)
    ensures Result([], o) == NoNewEmails
    ensures Run([], o).events == [] && Run([], o).classified == 0 && Run([], o).moved == 0
  {
  }

  /** The classifier's fallback label keeps the message in place; a spam
      label, whatever its case, moves it to the spam folder. */
  lemma FallbackKeepsSpamMoves(uid: nat)
    ensures Decision(uid, "Other") == Keep(uid)
    ensures Decision(uid, "INBOX.SPAM") == Move(uid, "INBOX.Spam")
  {
    UnknownLabelsStayInInbox();
    SpamLabelsRoute();
  }

  /** The sender string handed to the classifier loses nothing: splitting it
      on commas gives back the sender list, when there is at least one sender
      and no address holds a comma. */
  lemma SendersRecoverable(e: Email)
    requires |e.from| >= 1
    requires forall i :: 0 <= i < |e.from| ==> ',' !in e.from[i]
    ensures Split(Join(e.from, SenderSeparator), ',') == e.from
  {
    assert SenderSeparator == [','];
    SplitJoin(e.from, ',');
  }

  // ---------------------------------------------------------------------
  // Every call but the last got a good answer

  /** The counters of a run state count the calls in its trace. */
  ghost predicate Counted(s: RunState) {
    s.fetched == |FetchedBatches(s.events)| &&
    s.classified == |ClassifyCalls(s.events)| &&
    s.moved == |MoveCalls(s.events)|
  }

  /** Every call made so far got a good answer, except the last call of a
      stopped run when the error is of that kind. */
  ghost predicate AnsweredOk(s: RunState, o: Oracle) {
    (forall n: nat :: n < s.fetched ==>
       o.fetch(n).Some? || (s.failure == Some(FetchFailed) && n + 1 == s.fetched)) &&
    (forall n: nat :: n < s.classified ==>
       o.classify(n).Some? || (s.failure == Some(ClassifyFailed) && n + 1 == s.classified)) &&
    (forall n: nat :: n < s.moved ==>
       o.move(n) || (s.failure == Some(MoveFailed) && n + 1 == s.moved))
  }

  /** A message's block calls the classifier once, fetches nothing, and
      calls the move for that message exactly when the answer routes it
      away from the inbox. */
  lemma EmailBlockCounts(e: Email, answer: Option<string>)
    ensures FetchedBatches(EmailBlock(e, answer)) == []
    ensures |ClassifyCalls(EmailBlock(e, answer))| == 1
    ensures MoveCalls(EmailBlock(e, answer))
            == if answer.Some? && MapCategoryToFolder(answer.value) != Inbox then [e.uid] else []
  {
    var block := EmailBlock(e, answer);
    EmailBlockFacts(e, answer, []);
    NoFetchNoBatches(block);
    match answer
    case None =>
      assert block[1..] == [];
    case Some(category) =>
      assert block[1..][1..][1..] == [];
      assert MoveCalls(block[1..][1..][1..]) == [];
      assert MoveCalls(block[1..]) == MoveCalls(block[1..][1..]);
  }

  /** One message makes one classifier call and at most one move call, and
      an error it stops on is the answer to one of these. */
  lemma ProcessEmailCounters(e: Email, o: Oracle, s: RunState)
    requires s.failure.None?
    ensures var t := ProcessEmail(e, o, s);
      t.classified == s.classified + 1 &&
      t.moved == s.moved + |MoveCalls(EmailBlock(e, o.classify(s.classified)))| &&
      (t.failure.None? ==> o.classify(s.classified).Some? && (t.moved > s.moved ==> o.move(s.moved))) &&
      (t.failure.Some? ==>
         (t.failure == Some(ClassifyFailed) && t.moved == s.moved) ||
         (t.failure == Some(MoveFailed) && o.classify(s.classified).Some? && t.moved == s.moved + 1))
  {
    EmailBlockCounts(e, o.classify(s.classified));
  }

  lemma ProcessEmailAnswers(e: Email, o: Oracle, s: RunState)
    requires s.failure.None? && Counted(s) && AnsweredOk(s, o)
    ensures Counted(ProcessEmail(e, o, s)) && AnsweredOk(ProcessEmail(e, o, s), o)
  {
    var block := EmailBlock(e, o.classify(s.classified));
    ProcessEmailShape(e, o, s);
    ProcessEmailCounters(e, o, s);
    EmailBlockCounts(e, o.classify(s.classified));
    FetchedBatchesAppend(s.events, block);
    ClassifyCallsAppend(s.events, block);
    MoveCallsAppend(s.events, block);
  }

  lemma {:induction false} ProcessEmailsAnswers(es: seq<Email>, o: Oracle, s: RunState)
    requires Counted(s) && AnsweredOk(s, o)
    ensures Counted(ProcessEmails(es, o, s)) && AnsweredOk(ProcessEmails(es, o, s), o)
    decreases |es|
  {
    if |es| > 0 && s.failure.None? {
      ProcessEmailAnswers(es[0], o, s);
      ProcessEmailsAnswers(es[1..], o, ProcessEmail(es[0], o, s));
    }
  }

  /** A fetch call adds one fetch to the trace and nothing else. */
  lemma FetchCounted(s: RunState, batch: Range, uids: seq<nat>)
    requires Counted(s)
    ensures Counted(s.(events := s.events + [Fetch(batch, uids)], fetched := s.fetched + 1))
  {
    var fetch := [Fetch(batch, uids)];
    FetchedBatchesAppend(s.events, fetch);
    ClassifyCallsAppend(s.events, fetch);
    MoveCallsAppend(s.events, fetch);
    assert fetch[1..] == [];
  }

  lemma {:induction false} ProcessBatchesAnswers(batches: seq<Range>, uids: seq<nat>, o: Oracle, s: RunState)
    requires Counted(s) && AnsweredOk(s, o)
    ensures Counted(ProcessBatches(batches, uids, o, s)) && AnsweredOk(ProcessBatches(batches, uids, o, s), o)
    decreases |batches|
  {
    if |batches| > 0 && s.failure.None? {
      var fetching := s.(events := s.events + [Fetch(batches[0], uids)], fetched := s.fetched + 1);
      FetchCounted(s, batches[0], uids);
      match o.fetch(s.fetched)
      case None =>
      case Some(emails) =>
        ProcessEmailsAnswers(emails, o, fetching);
        ProcessBatchesAnswers(batches[1..], uids, o, ProcessEmails(emails, o, fetching));
    }
  }

  /** The counters of a run are the numbers of fetch, classifier and move
      calls in its trace, and every one of these calls got a good answer,
      except the last call of a run that stopped, when its error is of that
      kind. */
  lemma RunCallsAnswered(uids: seq<nat>, o: Oracle)
    ensures Counted(Run(uids, o)) && AnsweredOk(Run(uids, o), o)
  {
    assert Counted(Initial);
    if |uids| > 0 {
      ProcessBatchesAnswers(Batches(|uids|), uids, o, Initial);
    }
  }

  /** A run that completes got a good answer to every call it made: no
      failed fetch, classification or move goes unnoticed. */
  lemma CompletedRunHadNoError(uids: seq<nat>, o: Oracle)
    requires Result(uids, o) == AllProcessed
    ensures forall n: nat :: n < |FetchedBatches(Run(uids, o).events)| ==> o.fetch(n).Some?
    ensures forall n: nat :: n < |ClassifyCalls(Run(uids, o).events)| ==> o.classify(n).Some?
    ensures forall n: nat :: n < |MoveCalls(Run(uids, o).events)| ==> o.move(n)
  {
    RunCallsAnswered(uids, o);
  }

  /** A failed move ends the run: it is the run's last move and last event,
      and the run panics with a move error. */
  lemma MoveErrorEndsRun(uids: seq<nat>, o: Oracle, n: nat)
    requires n < |MoveCalls(Run(uids, o).events)| && !o.move(n)
    ensures Result(uids, o) == Panicked(MoveFailed)
    ensures n + 1 == |MoveCalls(Run(uids, o).events)|
    ensures Run(uids, o).events[|Run(uids, o).events| - 1].Move?
  {
    RunCallsAnswered(uids, o);
    RunWellFormed(uids, o);
  }

  /** A failed classification ends the run: it is the run's last classifier
      call and last event, and the run panics with a classifier error. */
  lemma ClassifyErrorEndsRun(uids: seq<nat>, o: Oracle, n: nat)
    requires n < |ClassifyCalls(Run(uids, o).events)| && o.classify(n).None?
    ensures Result(uids, o) == Panicked(ClassifyFailed)
    ensures n + 1 == |ClassifyCalls(Run(uids, o).events)|
    ensures Run(uids, o).events[|Run(uids, o).events| - 1].Classify?
  {
    RunCallsAnswered(uids, o);
    RunWellFormed(uids, o);
  }

  /** A failed fetch ends the run: it is the run's last fetch and last event,
      and the run panics with a fetch error. */
  lemma FetchErrorEndsRun(uids: seq<nat>, o: Oracle, n: nat)
    requires n < |FetchedBatches(Run(uids, o).events)| && o.fetch(n).None?
    ensures Result(uids, o) == Panicked(FetchFailed)
    ensures n + 1 == |FetchedBatches(Run(uids, o).events)|
    ensures Run(uids, o).events[|Run(uids, o).events| - 1].Fetch?
  {
    RunCallsAnswered(uids, o);
    RunWellFormed(uids, o);
  }

  // ---------------------------------------------------------------------
  // An error only cuts the run short

  /** One collaborator call: the n-th fetch, classification or move. */
  datatype Call = FetchCall(n: nat) | ClassifyCall(n: nat) | MoveCall(n: nat)

  /** The answer `o` gives to call `c` is an error. */
  ghost predicate Fails(o: Oracle, c: Call) {
    match c
    case FetchCall(n) => o.fetch(n).None?
    case ClassifyCall(n) => o.classify(n).None?
    case MoveCall(n) => !o.move(n)
  }

  /** `o` and `o2` give the same answer to every call except `c`. */
  ghost predicate AgreeExcept(o: Oracle, o2: Oracle, c: Call) {
    (forall n :: c != FetchCall(n) ==> o.fetch(n) == o2.fetch(n)) &&
    (forall n :: c != ClassifyCall(n) ==> o.classify(n) == o2.classify(n)) &&
    (forall n :: c != MoveCall(n) ==> o.move(n) == o2.move(n))
  }

  lemma ProcessEmailAgree(e: Email, o: Oracle, o2: Oracle, c: Call, s: RunState)
    requires s.failure.None? && Fails(o, c) && AgreeExcept(o, o2, c)
    ensures ProcessEmail(e, o, s).failure.None? ==> ProcessEmail(e, o, s) == ProcessEmail(e, o2, s)
    ensures ProcessEmail(e, o, s).events <= ProcessEmail(e, o2, s).events
  {
    var asked := s.events + [Classify(e.uid, e.subject, Join(e.from, SenderSeparator), e.html)];
    var a := ProcessEmail(e, o, s);
    var b := ProcessEmail(e, o2, s);
    if o.classify(s.classified) != o2.classify(s.classified) {
      assert c == ClassifyCall(s.classified);
      assert a.events == asked;
      assert asked <= b.events;
    } else if o.classify(s.classified).Some? && o.move(s.moved) != o2.move(s.moved) {
      assert c == MoveCall(s.moved);
      assert a.events == b.events;
    }
  }

  lemma {:induction false} ProcessEmailsExtends(es: seq<Email>, o: Oracle, s: RunState)
    ensures s.events <= ProcessEmails(es, o, s).events
    decreases |es|
  {
    if |es| > 0 && s.failure.None? {
      var s1 := ProcessEmail(es[0], o, s);
      ProcessEmailShape(es[0], o, s);
      ProcessEmailsExtends(es[1..], o, s1);
      assert ProcessEmails(es, o, s) == ProcessEmails(es[1..], o, s1);
      PrefixTrans(s.events, s1.events, ProcessEmails(es, o, s).events);
    }
  }

  lemma {:induction false} ProcessBatchesExtends(batches: seq<Range>, uids: seq<nat>, o: Oracle, s: RunState)
    ensures s.events <= ProcessBatches(batches, uids, o, s).events
    decreases |batches|
  {
    if |batches| > 0 && s.failure.None? {
      var fetching := s.(events := s.events + [Fetch(batches[0], uids)], fetched := s.fetched + 1);
      match o.fetch(s.fetched)
      case None =>
      case Some(emails) =>
        var passed := ProcessEmails(emails, o, fetching);
        ProcessEmailsExtends(emails, o, fetching);
        ProcessBatchesExtends(batches[1..], uids, o, passed);
        var t := ProcessBatches(batches, uids, o, s);
        assert t == ProcessBatches(batches[1..], uids, o, passed);
        PrefixTrans(fetching.events, passed.events, t.events);
        PrefixTrans(s.events, fetching.events, t.events);
    }
  }

  lemma {:induction false} ProcessEmailsAgree(es: seq<Email>, o: Oracle, o2: Oracle, c: Call, s: RunState)
    requires Fails(o, c) && AgreeExcept(o, o2, c)
    ensures ProcessEmails(es, o, s).failure.None? ==> ProcessEmails(es, o, s) == ProcessEmails(es, o2, s)
    ensures ProcessEmails(es, o, s).events <= ProcessEmails(es, o2, s).events
    decreases |es|
  {
    if |es| > 0 && s.failure.None? {
      var a := ProcessEmail(es[0], o, s);
      var b := ProcessEmail(es[0], o2, s);
      ProcessEmailAgree(es[0], o, o2, c, s);
      if a.failure.None? {
        ProcessEmailsAgree(es[1..], o, o2, c, a);
      } else {
        ProcessEmailsExtends(es[1..], o2, b);
      }
    }
  }

  lemma {:induction false} ProcessBatchesAgree(batches: seq<Range>, uids: seq<nat>, o: Oracle, o2: Oracle, c: Call, s: RunState)
    requires Fails(o, c) && AgreeExcept(o, o2, c)
    ensures ProcessBatches(batches, uids, o, s).failure.None? ==>
      ProcessBatches(batches, uids, o, s) == ProcessBatches(batches, uids, o2, s)
    ensures ProcessBatches(batches, uids, o, s).events <= ProcessBatches(batches, uids, o2, s).events
    decreases |batches|
  {
    if |batches| > 0 && s.failure.None? {
      var fetching := s.(events := s.events + [Fetch(batches[0], uids)], fetched := s.fetched + 1);
      match o.fetch(s.fetched)
      case None =>
        ProcessBatchesExtends(batches, uids, o2, s);
        assert fetching.events <= ProcessBatches(batches, uids, o2, s).events by {
          match o2.fetch(s.fetched)
          case None =>
          case Some(emails2) =>
            ProcessEmailsExtends(emails2, o2, fetching);
            ProcessBatchesExtends(batches[1..], uids, o2, ProcessEmails(emails2, o2, fetching));
        }
      case Some(emails) =>
        assert o2.fetch(s.fetched) == Some(emails);
        var a := ProcessEmails(emails, o, fetching);
        var b := ProcessEmails(emails, o2, fetching);
        ProcessEmailsAgree(emails, o, o2, c, fetching);
        if a.failure.None? {
          ProcessBatchesAgree(batches[1..], uids, o, o2, c, a);
        } else {
          ProcessBatchesExtends(batches[1..], uids, o2, b);
        }
    }
  }

  /** An error answer only cuts the run short. Take a run whose collaborators
      answer some call with an error, and a second run whose collaborators
      answer that call in any other way and every other call as before. The
      first run's trace is a prefix of the second's: everything done before
      the error (moves included) is what the second run does too. If the
      first run completes, the two runs are equal. That the error is the last
      thing the run does is `MoveErrorEndsRun`, `ClassifyErrorEndsRun` and
      `FetchErrorEndsRun`. */
  lemma ErrorTruncatesRun(uids: seq<nat>, o: Oracle, o2: Oracle, c: Call)
    requires Fails(o, c) && AgreeExcept(o, o2, c)
    ensures Run(uids, o).events <= Run(uids, o2).events
    ensures Run(uids, o).failure.None? ==> Run(uids, o) == Run(uids, o2)
  {
    if |uids| > 0 {
      ProcessBatchesAgree(Batches(|uids|), uids, o, o2, c, Initial);
    }
  }
}
