/** What a drained `get_message` run does, proved of `Transports.Cycle`:
    which UIDs are yielded and in what order, how outcomes are counted, which
    commands are sent and when, and how the selected mailbox and the archive
    folder change. The decision for each UID depends only on the texts of the
    messages, which a run never changes, so it is stated once, by `Classify`,
    against the server state before the run. */
module TransportProperties {
  import opened Base
  import opened SearchResponse
  import opened Imap
  import opened Transports

  /** The FETCH of `uid` sets \Seen: an `RFC822` fetch that did not raise. */
  predicate Refreshes(p: Params, uid: Uid) {
    FetchItemOf(p.cfg.variant) == Rfc822 && FetchCmd(uid, Rfc822) !in p.faults
  }

  /** The outcome of `uid`, decided from the stored messages alone: it is
      yielded only when its FETCH did not raise, the server holds it, the
      parser accepted it, the condition (if any) accepted it and, in the
      peek-only variant, its Message-ID is not already stored. */
  function Classify(p: Params, msgs: map<Uid, Stored>, uid: Uid): (o: Outcome)
    ensures o == Yielded ==>
      && FetchCmd(uid, FetchItemOf(p.cfg.variant)) !in p.faults
      && uid in msgs
      && p.env.emailFromBytes(msgs[uid].content).Parsed?
      && Judge(p.condition, p.env.emailFromBytes(msgs[uid].content).message) == Accept
      && !(SkipsStoredDuplicates(p.cfg.variant) && IsStoredDuplicate(p.env, p.env.emailFromBytes(msgs[uid].content).message))
    ensures
      && FetchCmd(uid, FetchItemOf(p.cfg.variant)) !in p.faults
      && uid in msgs
      && p.env.emailFromBytes(msgs[uid].content).Parsed?
      && Judge(p.condition, p.env.emailFromBytes(msgs[uid].content).message) == Accept
      && !(SkipsStoredDuplicates(p.cfg.variant) && IsStoredDuplicate(p.env, p.env.emailFromBytes(msgs[uid].content).message))
      ==> o == Yielded
  {
    if FetchCmd(uid, FetchItemOf(p.cfg.variant)) in p.faults then Errored
    else if uid !in msgs then Vanished
    else match p.env.emailFromBytes(msgs[uid].content)
      case ParseTypeError => Vanished
      case MessageParseError => Errored
      case OtherError => Errored
      case Parsed(m) =>
        match Judge(p.condition, m)
        case Raise => Errored
        case Reject => Filtered
        case Accept => if SkipsStoredDuplicates(p.cfg.variant) && IsStoredDuplicate(p.env, m) then Duplicate else Yielded
  }

  function ParsedAt(p: Params, msgs: map<Uid, Stored>, uid: Uid): Message
    requires Classify(p, msgs, uid) == Yielded
  {
    p.env.emailFromBytes(msgs[uid].content).message
  }

  /** The same UIDs holding the same texts (flags may differ). */
  predicate SameContents(m1: map<Uid, Stored>, m2: map<Uid, Stored>) {
    m1.Keys == m2.Keys && forall u :: u in m1 ==> m2[u].content == m1[u].content
  }

  lemma ClassifyStable(p: Params, m1: map<Uid, Stored>, m2: map<Uid, Stored>, uid: Uid)
    requires SameContents(m1, m2)
    ensures Classify(p, m1, uid) == Classify(p, m2, uid)
    ensures Classify(p, m1, uid) == Yielded ==> ParsedAt(p, m1, uid) == ParsedAt(p, m2, uid)
  {
    assert uid in m1 <==> uid in m2;
  }

  function Contents(ms: seq<Stored>): seq<Bytes>
    decreases |ms|
  {
    if ms == [] then [] else Contents(ms[..|ms| - 1]) + [ms[|ms| - 1].content]
  }

  lemma ContentsAppend(ms: seq<Stored>, x: Stored)
    ensures Contents(ms + [x]) == Contents(ms) + [x.content]
  {
    assert (ms + [x])[..|ms|] == ms;
  }

  /** The archive text contributed by one UID: its text when it is yielded
      and its COPY does not raise. */
  function ArchivedAt(p: Params, msgs: map<Uid, Stored>, uid: Uid): seq<Bytes> {
    var a := p.cfg.archive;
    if Classify(p, msgs, uid) == Yielded && a != "" && CopyCmd(uid, a) !in p.faults
    then [msgs[uid].content] else []
  }

  /** The events of one UID: its FETCH, and for a yielded UID the yield, the
      archive COPY and, in the marking variants, the STORE of \Seen. */
  function StepEvents(p: Params, msgs: map<Uid, Stored>, uid: Uid): seq<Event> {
    var copy := if p.cfg.archive != "" then [Sent(CopyCmd(uid, p.cfg.archive))] else [];
    var store := if MarksSeenAfterYield(p.cfg.variant) then [Sent(StoreCmd(uid, Seen))] else [];
    var after := if Classify(p, msgs, uid) == Yielded then [Yield(uid)] + copy + store else [];
    [Sent(FetchCmd(uid, FetchItemOf(p.cfg.variant)))] + after
  }

  /** The state just after the FETCH of `uid`. */
  function Fetched(p: Params, r: Run, uid: Uid): Run {
    var fetch := FetchCmd(uid, FetchItemOf(p.cfg.variant));
    Issue(r, fetch).(server := if fetch in p.faults then r.server else AfterFetch(r.server, uid, fetch.item))
  }

  /** `Step` in three shapes, chosen by the outcome of `uid`. */
  lemma StepForm(p: Params, r: Run, uid: Uid)
    ensures var o, r1 := Classify(p, r.server.messages, uid), Fetched(p, r, uid);
      Step(p, r, uid) ==
        if o == Yielded then MarkSeen(p, CopyToArchive(p, Emit(r1, uid, ParsedAt(p, r.server.messages, uid)), uid), uid)
        else if o == Errored then Fail(r1)
        else Skip(r1, o)
  {
    var fetch := FetchCmd(uid, FetchItemOf(p.cfg.variant));
    var r1 := Fetched(p, r, uid);
    if fetch in p.faults {
      assert Step(p, r, uid) == Fail(r1);
    } else if uid !in r.server.messages {
      assert FetchResult(r.server, uid) == NoData;
      assert Step(p, r, uid) == Skip(r1, Vanished);
    } else {
      var raw := r.server.messages[uid].content;
      assert FetchResult(r.server, uid) == Body(raw);
      match p.env.emailFromBytes(raw)
      case ParseTypeError =>
        assert Step(p, r, uid) == Skip(r1, Vanished);
      case MessageParseError =>
        assert Step(p, r, uid) == Fail(r1);
      case OtherError =>
        assert Step(p, r, uid) == Fail(r1);
      case Parsed(m) =>
        var verdict := Judge(p.condition, m);
        if verdict == Raise {
          assert Step(p, r, uid) == Fail(r1);
        } else if verdict == Reject {
          assert Step(p, r, uid) == Skip(r1, Filtered);
        } else if SkipsStoredDuplicates(p.cfg.variant) && IsStoredDuplicate(p.env, m) {
          assert Step(p, r, uid) == Skip(r1, Duplicate);
        } else {
          assert Step(p, r, uid) == MarkSeen(p, CopyToArchive(p, Emit(r1, uid, m), uid), uid);
        }
    }
  }

  /** One UID keeps the mailbox order, its UIDs and their texts. */
  lemma StepContents(p: Params, r: Run, uid: Uid)
    ensures var s, t := r.server, Step(p, r, uid).server;
      t.order == s.order && SameContents(s.messages, t.messages)
  {
    StepForm(p, r, uid);
    var r1 := Fetched(p, r, uid);
    assert r1.server.order == r.server.order && SameContents(r.server.messages, r1.server.messages);
    if Classify(p, r.server.messages, uid) == Yielded {
      var c := CopyToArchive(p, Emit(r1, uid, ParsedAt(p, r.server.messages, uid)), uid);
      assert c.server.order == r1.server.order && c.server.messages == r1.server.messages;
    }
  }

  /** One UID changes flags only by \Seen on that UID, when its FETCH sets
      it; the STORE of the marking variants adds nothing the RFC822 FETCH
      has not already set. */
  lemma StepFlags(p: Params, r: Run, uid: Uid)
    ensures var s, t := r.server, Step(p, r, uid).server;
      t.messages.Keys == s.messages.Keys
      && forall v :: v in s.messages ==>
           t.messages[v].flags == s.messages[v].flags + (if v == uid && Refreshes(p, v) then {Seen} else {})
  {
    StepForm(p, r, uid);
    var r1 := Fetched(p, r, uid);
    assert r1.server.messages.Keys == r.server.messages.Keys;
    assert forall v :: v in r.server.messages ==>
      r1.server.messages[v].flags == r.server.messages[v].flags + (if v == uid && Refreshes(p, v) then {Seen} else {});
    if Classify(p, r.server.messages, uid) == Yielded {
      var c := CopyToArchive(p, Emit(r1, uid, ParsedAt(p, r.server.messages, uid)), uid);
      assert c.server.messages == r1.server.messages;
      if MarksSeenAfterYield(p.cfg.variant) {
        assert Refreshes(p, uid) && uid in r.server.messages;
      }
    }
  }

  /** One UID changes the folders only by a copy of its text into the
      archive folder, when it is yielded and its COPY does not raise. */
  lemma StepFolders(p: Params, r: Run, uid: Uid)
    ensures var s, t := r.server, Step(p, r, uid).server;
      && t.folders.Keys == s.folders.Keys
      && (forall f :: f in s.folders && f != p.cfg.archive ==> t.folders[f] == s.folders[f])
      && (p.cfg.archive in s.folders ==>
            Contents(t.folders[p.cfg.archive]) == Contents(s.folders[p.cfg.archive]) + ArchivedAt(p, s.messages, uid))
  {
    StepForm(p, r, uid);
    var a := p.cfg.archive;
    var r1 := Fetched(p, r, uid);
    assert r1.server.folders == r.server.folders;
    if Classify(p, r.server.messages, uid) == Yielded {
      var e := Emit(r1, uid, ParsedAt(p, r.server.messages, uid));
      var c := CopyToArchive(p, e, uid);
      assert MarkSeen(p, c, uid).server.folders == c.server.folders;
      if a != "" && CopyCmd(uid, a) !in p.faults {
        assert c.server == AfterCopy(e.server, uid, a);
        if a in r.server.folders {
          ContentsAppend(r.server.folders[a], e.server.messages[uid]);
        }
      } else {
        assert c.server == e.server;
      }
    } else {
      assert Step(p, r, uid).server == r1.server;
    }
  }

  /** One UID appends its outcome and its yield (if any). */
  lemma StepRecord(p: Params, r: Run, uid: Uid)
    ensures var r', o := Step(p, r, uid), Classify(p, r.server.messages, uid);
      && r'.outcomes == r.outcomes + [o]
      && r'.yieldedUids == r.yieldedUids + (if o == Yielded then [uid] else [])
      && r'.yielded == r.yielded + (if o == Yielded then [ParsedAt(p, r.server.messages, uid)] else [])
  {
    StepForm(p, r, uid);
  }

  /** One UID moves the counters by its outcome: a yield is processed, an
      error is counted, and a STORE that did not raise is a mark. */
  lemma StepTally(p: Params, r: Run, uid: Uid)
    ensures var r', o := Step(p, r, uid), Classify(p, r.server.messages, uid);
      && r'.tally.processed == r.tally.processed + (if o == Yielded then 1 else 0)
      && r'.tally.errors == r.tally.errors + (if o == Errored then 1 else 0)
      && r'.tally.marked == r.tally.marked
           + (if o == Yielded && MarksSeenAfterYield(p.cfg.variant) && StoreCmd(uid, Seen) !in p.faults then 1 else 0)
  {
    StepForm(p, r, uid);
  }

  /** One UID appends its events to the trace. */
  lemma StepTrace(p: Params, r: Run, uid: Uid)
    ensures Step(p, r, uid).trace == r.trace + StepEvents(p, r.server.messages, uid)
  {
    StepForm(p, r, uid);
    var o, r1 := Classify(p, r.server.messages, uid), Fetched(p, r, uid);
    var fetch := Sent(FetchCmd(uid, FetchItemOf(p.cfg.variant)));
    assert r1.trace == r.trace + [fetch];
    if o == Yielded {
      var e := Emit(r1, uid, ParsedAt(p, r.server.messages, uid));
      var c := CopyToArchive(p, e, uid);
      var copy := if p.cfg.archive != "" then [Sent(CopyCmd(uid, p.cfg.archive))] else [];
      var store := if MarksSeenAfterYield(p.cfg.variant) then [Sent(StoreCmd(uid, Seen))] else [];
      assert c.trace == e.trace + copy;
      assert MarkSeen(p, c, uid).trace == c.trace + store;
      assert StepEvents(p, r.server.messages, uid) == [fetch] + ([Yield(uid)] + copy + store);
    } else {
      assert StepEvents(p, r.server.messages, uid) == [fetch];
    }
  }

  // Reference definitions over the candidate list, each built from the back
  // like `Loop`.

  function Outcomes(p: Params, msgs: map<Uid, Stored>, ids: seq<Uid>): (os: seq<Outcome>)
    ensures |os| == |ids|
    decreases |ids|
  {
    if ids == [] then [] else Outcomes(p, msgs, ids[..|ids| - 1]) + [Classify(p, msgs, ids[|ids| - 1])]
  }

  /** The candidates that are yielded, in candidate order. */
  function Accepted(p: Params, msgs: map<Uid, Stored>, ids: seq<Uid>): seq<Uid>
    decreases |ids|
  {
    if ids == [] then []
    else
      var x := ids[|ids| - 1];
      Accepted(p, msgs, ids[..|ids| - 1]) + (if Classify(p, msgs, x) == Yielded then [x] else [])
  }

  function AcceptedMessages(p: Params, msgs: map<Uid, Stored>, ids: seq<Uid>): seq<Message>
    decreases |ids|
  {
    if ids == [] then []
    else
      var x := ids[|ids| - 1];
      AcceptedMessages(p, msgs, ids[..|ids| - 1]) + (if Classify(p, msgs, x) == Yielded then [ParsedAt(p, msgs, x)] else [])
  }

  function LoopEvents(p: Params, msgs: map<Uid, Stored>, ids: seq<Uid>): seq<Event>
    decreases |ids|
  {
    if ids == [] then [] else LoopEvents(p, msgs, ids[..|ids| - 1]) + StepEvents(p, msgs, ids[|ids| - 1])
  }

  function ArchivedContents(p: Params, msgs: map<Uid, Stored>, ids: seq<Uid>): seq<Bytes>
    decreases |ids|
  {
    if ids == [] then [] else ArchivedContents(p, msgs, ids[..|ids| - 1]) + ArchivedAt(p, msgs, ids[|ids| - 1])
  }

  /** How many yielded candidates had a STORE that did not raise. */
  function MarkedCount(p: Params, msgs: map<Uid, Stored>, ids: seq<Uid>): nat
    decreases |ids|
  {
    if ids == [] then 0
    else
      var x := ids[|ids| - 1];
      MarkedCount(p, msgs, ids[..|ids| - 1])
        + (if Classify(p, msgs, x) == Yielded && MarksSeenAfterYield(p.cfg.variant) && StoreCmd(x, Seen) !in p.faults then 1 else 0)
  }

  function CountOf(os: seq<Outcome>, o: Outcome): nat
    decreases |os|
  {
    if os == [] then 0 else CountOf(os[..|os| - 1], o) + (if os[|os| - 1] == o then 1 else 0)
  }

  /** The loop keeps the mailbox order, its UIDs and their texts. */
  lemma {:induction false} LoopContents(p: Params, start: Run, ids: seq<Uid>)
    ensures var s, t := start.server, Loop(p, start, ids).server;
      t.order == s.order && SameContents(s.messages, t.messages)
    decreases |ids|
  {
    if ids != [] {
      LoopContents(p, start, ids[..|ids| - 1]);
      StepContents(p, Loop(p, start, ids[..|ids| - 1]), ids[|ids| - 1]);
    }
  }

  /** The loop changes flags only by \Seen on the candidates whose FETCH
      sets it. */
  lemma {:induction false} LoopFlags(p: Params, start: Run, ids: seq<Uid>)
    ensures var s, t := start.server, Loop(p, start, ids).server;
      forall v :: v in s.messages ==>
        v in t.messages && t.messages[v].flags == s.messages[v].flags + (if v in ids && Refreshes(p, v) then {Seen} else {})
    decreases |ids|
  {
    if ids != [] {
      var init, x := ids[..|ids| - 1], ids[|ids| - 1];
      var mid := Loop(p, start, init);
      LoopFlags(p, start, init);
      StepFlags(p, mid, x);
      assert forall v :: v in ids <==> v in init || v == x by {
        SplitLast(ids);
      }
    }
  }

  /** The loop creates no folder, leaves every folder but the archive alone,
      and appends to the archive folder the texts of the yielded candidates
      whose COPY did not raise, in order. */
  lemma {:induction false} LoopFolders(p: Params, start: Run, ids: seq<Uid>)
    ensures var s, t, a := start.server, Loop(p, start, ids).server, p.cfg.archive;
      && t.folders.Keys == s.folders.Keys
      && (forall f :: f in s.folders && f != a ==> t.folders[f] == s.folders[f])
      && (a in s.folders ==> Contents(t.folders[a]) == Contents(s.folders[a]) + ArchivedContents(p, s.messages, ids))
    decreases |ids|
  {
    if ids != [] {
      var init, x := ids[..|ids| - 1], ids[|ids| - 1];
      var mid := Loop(p, start, init);
      LoopFolders(p, start, init);
      LoopContents(p, start, init);
      StepFolders(p, mid, x);
      ClassifyStable(p, start.server.messages, mid.server.messages, x);
      assert ArchivedAt(p, mid.server.messages, x) == ArchivedAt(p, start.server.messages, x);
    }
  }

  lemma CountOfAppend(os: seq<Outcome>, x: Outcome, o: Outcome)
    ensures CountOf(os + [x], o) == CountOf(os, o) + (if x == o then 1 else 0)
  {
    assert (os + [x])[..|os|] == os;
  }

  /** The loop's outcome list and yielded lists are the reference lists of
      the candidates, decided on the messages as they were when the loop
      started. */
  lemma {:induction false} LoopLists(p: Params, start: Run, ids: seq<Uid>)
    ensures var e, m := Loop(p, start, ids), start.server.messages;
      && e.outcomes == start.outcomes + Outcomes(p, m, ids)
      && e.yieldedUids == start.yieldedUids + Accepted(p, m, ids)
      && e.yielded == start.yielded + AcceptedMessages(p, m, ids)
    decreases |ids|
  {
    if ids != [] {
      var init, x := ids[..|ids| - 1], ids[|ids| - 1];
      var mid := Loop(p, start, init);
      LoopLists(p, start, init);
      LoopContents(p, start, init);
      StepRecord(p, mid, x);
      ClassifyStable(p, start.server.messages, mid.server.messages, x);
    }
  }

  /** The loop's trace is the per-candidate events one after the other. */
  lemma {:induction false} LoopTrace(p: Params, start: Run, ids: seq<Uid>)
    ensures Loop(p, start, ids).trace == start.trace + LoopEvents(p, start.server.messages, ids)
    decreases |ids|
  {
    if ids != [] {
      var init, x := ids[..|ids| - 1], ids[|ids| - 1];
      var mid := Loop(p, start, init);
      LoopTrace(p, start, init);
      LoopContents(p, start, init);
      StepTrace(p, mid, x);
      ClassifyStable(p, start.server.messages, mid.server.messages, x);
      assert StepEvents(p, mid.server.messages, x) == StepEvents(p, start.server.messages, x);
    }
  }

  /** The loop's tally adds one processed per yielded candidate, one error per
      errored candidate and one mark per STORE that did not raise. */
  lemma {:induction false} LoopTally(p: Params, start: Run, ids: seq<Uid>)
    ensures var e, m := Loop(p, start, ids), start.server.messages;
      && e.tally.processed == start.tally.processed + |Accepted(p, m, ids)|
      && e.tally.errors == start.tally.errors + CountOf(Outcomes(p, m, ids), Errored)
      && e.tally.marked == start.tally.marked + MarkedCount(p, m, ids)
    decreases |ids|
  {
    if ids != [] {
      var init, x := ids[..|ids| - 1], ids[|ids| - 1];
      var mid := Loop(p, start, init);
      var m := start.server.messages;
      LoopTally(p, start, init);
      LoopContents(p, start, init);
      StepTally(p, mid, x);
      ClassifyStable(p, m, mid.server.messages, x);
      CountOfAppend(Outcomes(p, m, init), Classify(p, m, x), Errored);
    }
  }
}
