/** Properties of a whole drained `get_message` run, `Transports.Cycle`,
    stated against the server state before the run: what is yielded and in
    what order, the counters, what happens to the selected mailbox and to
    the archive folder, and which commands are sent in which order. */
module CycleProperties {
  import opened Base
  import opened SearchResponse
  import opened Imap
  import opened Transports
  import opened TransportProperties

  /** The UIDs the loop walks over: the listing after the size filter, or
      nothing when the listing is empty. */
  function Candidates(p: Params, s: ServerState): seq<Uid> {
    var ids := Listing(p, s);
    if ids == [] then [] else SizeFiltered(p, ids)
  }

  /** The run as it enters the loop. */
  function Entry(p: Params, s: ServerState): Run {
    if Listing(p, s) == [] then Initial(p, s) else ArchiveSetup(p, Initial(p, s))
  }

  lemma CycleIsLoop(p: Params, s: ServerState)
    ensures Cycle(p, s) == Loop(p, Entry(p, s), Candidates(p, s))
  {
  }

  /** The loop starts with nothing yielded or counted, on the mailbox as it
      was, after the preamble's commands. */
  lemma EntryFresh(p: Params, s: ServerState)
    ensures var e := Entry(p, s);
      && e.yielded == [] && e.yieldedUids == [] && e.outcomes == []
      && e.tally == Tally(0, 0, 0)
      && e.server.messages == s.messages && e.server.order == s.order
      && e.trace == Preamble(p, s)
  {
    if Listing(p, s) != [] {
      ArchiveSetupEffect(p, Initial(p, s));
    }
  }

  /** The commands of the archive setup: LIST, and CREATE when LIST did not
      raise and the folder is missing. */
  function SetupEvents(p: Params, s: ServerState): seq<Event> {
    var a := p.cfg.archive;
    if a == "" then []
    else [Sent(ListCmd(a))] + (if ListCmd(a) !in p.faults && a !in s.folders then [Sent(CreateCmd(a))] else [])
  }

  /** What is sent before the first FETCH. */
  function Preamble(p: Params, s: ServerState): seq<Event> {
    ListingTrace(p) + (if Listing(p, s) == [] then [] else SetupEvents(p, s))
  }

  /** The archive setup is best effort: it sends LIST for a configured
      archive, CREATE exactly when LIST did not raise and reported no folder,
      and afterwards the archive exists when it existed before or both
      commands went through. It leaves the mailbox and every existing folder
      alone and records nothing but its commands. */
  lemma ArchiveSetupEffect(p: Params, r: Run)
    ensures var t, s, a := ArchiveSetup(p, r), r.server, p.cfg.archive;
      && t == r.(server := t.server, trace := r.trace + SetupEvents(p, s))
      && (Sent(CreateCmd(a)) in SetupEvents(p, s) <==> a != "" && ListCmd(a) !in p.faults && a !in s.folders)
      && t.server.order == s.order && t.server.messages == s.messages
      && (forall f :: f in s.folders ==> f in t.server.folders && t.server.folders[f] == s.folders[f])
      && t.server.folders.Keys <= s.folders.Keys + {a}
      && (a in t.server.folders <==> a in s.folders || (a != "" && ListCmd(a) !in p.faults && CreateCmd(a) !in p.faults))
      && (a in t.server.folders && a !in s.folders ==> t.server.folders[a] == [])
  {
    var a := p.cfg.archive;
    if a != "" && ListCmd(a) !in p.faults {
      assert ListResponse(r.server, a)[0] == NoFolder <==> a !in r.server.folders;
    }
  }

  // Projections of a trace.

  function FetchedUid(e: Event): Option<Uid> {
    if e.Sent? && e.call.FetchCmd? then Some(e.call.uid) else None
  }

  function YieldedUid(e: Event): Option<Uid> {
    if e.Yield? then Some(e.uid) else None
  }

  /** The UIDs that `f` picks out of the trace, in trace order. */
  function Project(t: seq<Event>, f: Event -> Option<Uid>): seq<Uid>
    decreases |t|
  {
    if t == [] then []
    else
      var e := t[|t| - 1];
      Project(t[..|t| - 1], f) + (if f(e).Some? then [f(e).value] else [])
  }

  lemma {:induction false} ProjectAppend(a: seq<Event>, b: seq<Event>, f: Event -> Option<Uid>)
    ensures Project(a + b, f) == Project(a, f) + Project(b, f)
    decreases |b|
  {
    if b != [] {
      var b', x := b[..|b| - 1], b[|b| - 1];
      assert (a + b)[..|a + b| - 1] == a + b';
      assert (a + b)[|a + b| - 1] == x;
      ProjectAppend(a, b', f);
    } else {
      assert a + b == a;
    }
  }

  lemma {:induction false} ProjectNone(t: seq<Event>, f: Event -> Option<Uid>)
    requires forall i :: 0 <= i < |t| ==> f(t[i]).None?
    ensures Project(t, f) == []
    decreases |t|
  {
    if t != [] {
      ProjectNone(t[..|t| - 1], f);
    }
  }

  lemma ProjectOne(e: Event, f: Event -> Option<Uid>)
    ensures Project([e], f) == if f(e).Some? then [f(e).value] else []
  {
    assert [e][..0] == [];
  }

  /** COPY and STORE are only ever sent for a UID after that UID was
      yielded. */
  predicate ActsOnlyAfterYield(t: seq<Event>) {
    forall i :: 0 <= i < |t| && t[i].Sent? && (t[i].call.CopyCmd? || t[i].call.StoreCmd?) ==>
      Yield(t[i].call.uid) in t[..i]
  }

  /** A command the transport's settings let it send: SEARCH only in the
      unread variants, FETCH only of its own data item, STORE only of \Seen
      and only in the marking variants, and COPY, LIST and CREATE only of a
      configured archive folder. No command deletes or expunges. */
  predicate Allowed(p: Params, c: Call) {
    var v, a := p.cfg.variant, p.cfg.archive;
    match c
    case SearchCmd => ListsUnseenOnly(v)
    case FetchCmd(_, item) => item == FetchItemOf(v)
    case StoreCmd(_, flag) => MarksSeenAfterYield(v) && flag == Seen
    case CopyCmd(_, dest) => dest == a && a != ""
    case ListCmd(pattern) => pattern == a && a != ""
    case CreateCmd(name) => name == a && a != ""
  }

  predicate SendsOnlyAllowed(p: Params, t: seq<Event>) {
    forall i :: 0 <= i < |t| && t[i].Sent? ==> Allowed(p, t[i].call)
  }

  lemma TraceAppend(p: Params, a: seq<Event>, b: seq<Event>)
    requires ActsOnlyAfterYield(a) && ActsOnlyAfterYield(b)
    requires SendsOnlyAllowed(p, a) && SendsOnlyAllowed(p, b)
    ensures ActsOnlyAfterYield(a + b) && SendsOnlyAllowed(p, a + b)
  {
    var t := a + b;
    forall i | 0 <= i < |t| && t[i].Sent? && (t[i].call.CopyCmd? || t[i].call.StoreCmd?)
      ensures Yield(t[i].call.uid) in t[..i]
    {
      if i < |a| {
        assert t[..i] == a[..i];
      } else {
        assert b[i - |a|] == t[i];
        assert t[..i] == a + b[..i - |a|];
      }
    }
  }

  /** The COPY and STORE a yielded UID is followed by: neither fetches nor yields. */
  function AfterYieldEvents(p: Params, x: Uid): (tail: seq<Event>)
    ensures forall k :: 0 <= k < |tail| ==> FetchedUid(tail[k]).None? && YieldedUid(tail[k]).None?
  {
    var copy := if p.cfg.archive != "" then [Sent(CopyCmd(x, p.cfg.archive))] else [];
    var store := if MarksSeenAfterYield(p.cfg.variant) then [Sent(StoreCmd(x, Seen))] else [];
    copy + store
  }

  /** What follows the FETCH among one UID's events. */
  function AfterFetchEvents(p: Params, m: map<Uid, Stored>, x: Uid): (after: seq<Event>)
    ensures StepEvents(p, m, x) == [Sent(FetchCmd(x, FetchItemOf(p.cfg.variant)))] + after
    ensures forall k :: 0 <= k < |after| ==> FetchedUid(after[k]).None?
    ensures forall k :: 1 <= k < |after| ==> YieldedUid(after[k]).None?
    ensures after != [] <==> Classify(p, m, x) == Yielded
    ensures after != [] ==> after[0] == Yield(x)
  {
    var tail := AfterYieldEvents(p, x);
    if Classify(p, m, x) == Yielded then [Yield(x)] + tail else []
  }

  /** One UID's events hold exactly one FETCH, of that UID. */
  lemma StepFetched(p: Params, m: map<Uid, Stored>, x: Uid)
    ensures Project(StepEvents(p, m, x), FetchedUid) == [x]
  {
    var fetch := Sent(FetchCmd(x, FetchItemOf(p.cfg.variant)));
    var after := AfterFetchEvents(p, m, x);
    ProjectOne(fetch, FetchedUid);
    ProjectNone(after, FetchedUid);
    ProjectAppend([fetch], after, FetchedUid);
    assert [x] + [] == [x];
  }

  /** One UID's events hold a yield of that UID exactly when it is yielded. */
  lemma StepYielded(p: Params, m: map<Uid, Stored>, x: Uid)
    ensures Project(StepEvents(p, m, x), YieldedUid) == (if Classify(p, m, x) == Yielded then [x] else [])
  {
    var fetch := Sent(FetchCmd(x, FetchItemOf(p.cfg.variant)));
    var after := AfterFetchEvents(p, m, x);
    ProjectOne(fetch, YieldedUid);
    ProjectAppend([fetch], after, YieldedUid);
    if after != [] {
      var tail := AfterYieldEvents(p, x);
      assert after == [Yield(x)] + tail;
      ProjectOne(Yield(x), YieldedUid);
      ProjectNone(tail, YieldedUid);
      ProjectAppend([Yield(x)], tail, YieldedUid);
      assert [] + ([x] + []) == [x];
    }
  }

  /** One UID's events send only allowed commands, and COPY and STORE only
      after the yield of that UID. */
  lemma StepOrder(p: Params, m: map<Uid, Stored>, x: Uid)
    ensures ActsOnlyAfterYield(StepEvents(p, m, x))
    ensures SendsOnlyAllowed(p, StepEvents(p, m, x))
  {
    var fetch := Sent(FetchCmd(x, FetchItemOf(p.cfg.variant)));
    if Classify(p, m, x) == Yielded {
      var a := p.cfg.archive;
      var copy := if a != "" then [Sent(CopyCmd(x, a))] else [];
      var store := if MarksSeenAfterYield(p.cfg.variant) then [Sent(StoreCmd(x, Seen))] else [];
      var tail := copy + store;
      var e := [fetch, Yield(x)] + tail;
      assert StepEvents(p, m, x) == e;
      assert forall k :: 0 <= k < |tail| ==> tail[k].Sent? && tail[k].call.uid == x && Allowed(p, tail[k].call);
      forall i | 0 <= i < |e| && e[i].Sent? && (e[i].call.CopyCmd? || e[i].call.StoreCmd?)
        ensures Yield(e[i].call.uid) in e[..i]
      {
        assert e[i] == tail[i - 2];
        assert e[..i][1] == Yield(x);
      }
    } else {
      assert StepEvents(p, m, x) == [fetch];
    }
  }

  /** The loop fetches every candidate once, in candidate order. */
  lemma {:induction false} LoopFetched(p: Params, m: map<Uid, Stored>, ids: seq<Uid>)
    ensures Project(LoopEvents(p, m, ids), FetchedUid) == ids
    decreases |ids|
  {
    if ids != [] {
      var init, x := ids[..|ids| - 1], ids[|ids| - 1];
      var before, step := LoopEvents(p, m, init), StepEvents(p, m, x);
      assert LoopEvents(p, m, ids) == before + step;
      LoopFetched(p, m, init);
      StepFetched(p, m, x);
      ProjectAppend(before, step, FetchedUid);
      SplitLast(ids);
    }
  }

  /** The loop yields the accepted candidates, in candidate order. */
  lemma {:induction false} LoopYieldedUids(p: Params, m: map<Uid, Stored>, ids: seq<Uid>)
    ensures Project(LoopEvents(p, m, ids), YieldedUid) == Accepted(p, m, ids)
    decreases |ids|
  {
    if ids != [] {
      var init, x := ids[..|ids| - 1], ids[|ids| - 1];
      var before, step := LoopEvents(p, m, init), StepEvents(p, m, x);
      assert LoopEvents(p, m, ids) == before + step;
      LoopYieldedUids(p, m, init);
      StepYielded(p, m, x);
      ProjectAppend(before, step, YieldedUid);
    }
  }

  /** The loop sends only allowed commands, and COPY and STORE only after the
      yield of their UID. */
  lemma {:induction false} LoopOrder(p: Params, m: map<Uid, Stored>, ids: seq<Uid>)
    ensures ActsOnlyAfterYield(LoopEvents(p, m, ids))
    ensures SendsOnlyAllowed(p, LoopEvents(p, m, ids))
    decreases |ids|
  {
    if ids != [] {
      var init, x := ids[..|ids| - 1], ids[|ids| - 1];
      LoopOrder(p, m, init);
      StepOrder(p, m, x);
      TraceAppend(p, LoopEvents(p, m, init), StepEvents(p, m, x));
    }
  }

  /** Only SEARCH, LIST and CREATE. */
  predicate Quiet(t: seq<Event>) {
    forall i :: 0 <= i < |t| ==> t[i].Sent? && (t[i].call.SearchCmd? || t[i].call.ListCmd? || t[i].call.CreateCmd?)
  }

  lemma QuietFacts(t: seq<Event>)
    requires Quiet(t)
    ensures Project(t, FetchedUid) == [] && Project(t, YieldedUid) == [] && ActsOnlyAfterYield(t)
  {
    ProjectNone(t, FetchedUid);
    ProjectNone(t, YieldedUid);
  }

  lemma SetupQuiet(p: Params, s: ServerState)
    ensures Quiet(SetupEvents(p, s)) && SendsOnlyAllowed(p, SetupEvents(p, s))
  {
  }

  lemma ListingQuiet(p: Params)
    ensures Quiet(ListingTrace(p)) && SendsOnlyAllowed(p, ListingTrace(p))
  {
  }

  lemma PreambleFacts(p: Params, s: ServerState)
    ensures var e := Preamble(p, s);
      && Project(e, FetchedUid) == [] && Project(e, YieldedUid) == []
      && ActsOnlyAfterYield(e) && SendsOnlyAllowed(p, e)
  {
    var l := ListingTrace(p);
    var u := if Listing(p, s) == [] then [] else SetupEvents(p, s);
    ListingQuiet(p);
    SetupQuiet(p, s);
    QuietFacts(l);
    QuietFacts(u);
    ProjectAppend(l, u, FetchedUid);
    ProjectAppend(l, u, YieldedUid);
    TraceAppend(p, l, u);
  }

  /** The candidates, in order, that are yielded; and the message yielded for
      each, which is what the parser made of its text. */
  lemma {:induction false} AcceptedFacts(p: Params, m: map<Uid, Stored>, ids: seq<Uid>)
    ensures var us, ms := Accepted(p, m, ids), AcceptedMessages(p, m, ids);
      && |ms| == |us|
      && (forall u :: u in us <==> u in ids && Classify(p, m, u) == Yielded)
      && (forall i :: 0 <= i < |us| ==> Classify(p, m, us[i]) == Yielded && ms[i] == ParsedAt(p, m, us[i]))
    decreases |ids|
  {
    if ids != [] {
      var init, x := ids[..|ids| - 1], ids[|ids| - 1];
      AcceptedFacts(p, m, init);
      SplitLast(ids);
    }
  }

  /** The counters against the candidates: yields and errors are different
      candidates, and a mark needs a yield. */
  lemma {:induction false} CountFacts(p: Params, m: map<Uid, Stored>, ids: seq<Uid>)
    ensures |Accepted(p, m, ids)| + CountOf(Outcomes(p, m, ids), Errored) <= |ids|
    ensures MarkedCount(p, m, ids) <= |Accepted(p, m, ids)|
    ensures !MarksSeenAfterYield(p.cfg.variant) ==> MarkedCount(p, m, ids) == 0
    ensures MarksSeenAfterYield(p.cfg.variant) && (forall u :: StoreCmd(u, Seen) !in p.faults) ==>
      MarkedCount(p, m, ids) == |Accepted(p, m, ids)|
    decreases |ids|
  {
    if ids != [] {
      var init, x := ids[..|ids| - 1], ids[|ids| - 1];
      CountFacts(p, m, init);
      CountOfAppend(Outcomes(p, m, init), Classify(p, m, x), Errored);
    }
  }

  /** The texts of the given UIDs, in order. */
  function TextsOf(m: map<Uid, Stored>, us: seq<Uid>): seq<Bytes>
    decreases |us|
  {
    if us == [] then []
    else
      var u := us[|us| - 1];
      TextsOf(m, us[..|us| - 1]) + (if u in m then [m[u].content] else [])
  }

  /** The archive receives only texts of yielded messages, and all of them,
      in yield order, when no COPY raises. */
  lemma {:induction false} ArchivedFacts(p: Params, m: map<Uid, Stored>, ids: seq<Uid>)
    ensures forall b :: b in ArchivedContents(p, m, ids) ==> b in TextsOf(m, Accepted(p, m, ids))
    ensures p.cfg.archive != "" && (forall u :: CopyCmd(u, p.cfg.archive) !in p.faults) ==>
      ArchivedContents(p, m, ids) == TextsOf(m, Accepted(p, m, ids))
    decreases |ids|
  {
    if ids != [] {
      var init, x := ids[..|ids| - 1], ids[|ids| - 1];
      ArchivedFacts(p, m, init);
      var us := Accepted(p, m, init);
      if Classify(p, m, x) == Yielded {
        assert Accepted(p, m, ids) == us + [x];
        assert (us + [x])[..|us|] == us;
        assert TextsOf(m, us + [x]) == TextsOf(m, us) + [m[x].content];
      } else {
        assert Accepted(p, m, ids) == us;
        assert ArchivedAt(p, m, x) == [];
      }
    }
  }

  /** `_get_unread_message_ids` on a well-formed server whose SEARCH does not
      raise: exactly the UIDs of the messages without \Seen, in mailbox
      order. */
  lemma UnreadIdsAreUnseen(s: ServerState, faults: set<Call>)
    requires Valid(s) && SearchCmd !in faults
    ensures UnreadIds(s, faults) == UnseenUids(s)
    ensures forall u :: u in UnreadIds(s, faults) <==> u in s.messages && Seen !in s.messages[u].flags
  {
    var us := UnseenUids(s);
    forall k | 0 <= k < |us| ensures IsNumber(us[k]) {
      assert us[k] in s.order;
    }
    SearchLineRoundTrip(us);
  }

  /** The run's outcome list and yielded lists are the reference lists of the
      candidates. */
  lemma CycleLists(p: Params, s: ServerState)
    ensures var r, ids, m := Cycle(p, s), Candidates(p, s), s.messages;
      && r.outcomes == Outcomes(p, m, ids)
      && r.yieldedUids == Accepted(p, m, ids)
      && r.yielded == AcceptedMessages(p, m, ids)
  {
    CycleIsLoop(p, s);
    EntryFresh(p, s);
    LoopLists(p, Entry(p, s), Candidates(p, s));
  }

  /** Each accepted candidate is held by the server, and the message kept for
      it is the parse of its text, accepted by the condition and, in the
      peek-only variant, not an already stored Message-ID. */
  lemma AcceptedParsed(p: Params, m: map<Uid, Stored>, ids: seq<Uid>)
    ensures var us, ms := Accepted(p, m, ids), AcceptedMessages(p, m, ids);
      && |ms| == |us|
      && (forall u :: u in us <==> u in ids && Classify(p, m, u) == Yielded)
      && (forall i :: 0 <= i < |us| ==>
            && us[i] in m
            && p.env.emailFromBytes(m[us[i]].content) == Parsed(ms[i])
            && Judge(p.condition, ms[i]) == Accept
            && !(SkipsStoredDuplicates(p.cfg.variant) && IsStoredDuplicate(p.env, ms[i])))
  {
    AcceptedFacts(p, m, ids);
  }

  /** `a` is `b` with some elements left out, in the same order. */
  predicate IsSubsequence(a: seq<Uid>, b: seq<Uid>)
    decreases |b|
  {
    if a == [] then true
    else if b == [] then false
    else if a[|a| - 1] == b[|b| - 1] then IsSubsequence(a[..|a| - 1], b[..|b| - 1])
    else IsSubsequence(a, b[..|b| - 1])
  }

  /** A subsequence of `b` is one of `b + [x]`. */
  lemma {:induction false} SubsequenceDrop(a: seq<Uid>, b: seq<Uid>, x: Uid)
    requires IsSubsequence(a, b)
    ensures IsSubsequence(a, b + [x])
    decreases |b|, 1
  {
    var bx := b + [x];
    assert bx[..|bx| - 1] == b && bx[|bx| - 1] == x;
    if a != [] && a[|a| - 1] == x {
      SubsequenceTrim(a, b);
    }
  }

  /** A subsequence without its last element is still a subsequence. */
  lemma {:induction false} SubsequenceTrim(a: seq<Uid>, b: seq<Uid>)
    requires a != [] && IsSubsequence(a, b)
    ensures IsSubsequence(a[..|a| - 1], b)
    decreases |b|, 0
  {
    var a', b', y := a[..|a| - 1], b[..|b| - 1], b[|b| - 1];
    if a[|a| - 1] != y {
      SubsequenceTrim(a, b');
    }
    SubsequenceDrop(a', b', y);
    assert b' + [y] == b;
  }

  /** Appending the same element to both keeps a subsequence. */
  lemma SubsequenceExtend(a: seq<Uid>, b: seq<Uid>, x: Uid)
    requires IsSubsequence(a, b)
    ensures IsSubsequence(a + [x], b + [x])
  {
    var bx, ax := b + [x], a + [x];
    assert bx[..|bx| - 1] == b && bx[|bx| - 1] == x;
    assert ax[..|ax| - 1] == a && ax[|ax| - 1] == x;
  }

  /** The accepted candidates are the candidates with some left out, in
      candidate order. */
  lemma {:induction false} AcceptedIsSubsequence(p: Params, m: map<Uid, Stored>, ids: seq<Uid>)
    ensures IsSubsequence(Accepted(p, m, ids), ids)
    decreases |ids|
  {
    if ids != [] {
      var init, x := ids[..|ids| - 1], ids[|ids| - 1];
      AcceptedIsSubsequence(p, m, init);
      SplitLast(ids);
      var us := Accepted(p, m, init);
      if Classify(p, m, x) == Yielded {
        assert Accepted(p, m, ids) == us + [x];
        SubsequenceExtend(us, init, x);
      } else {
        assert Accepted(p, m, ids) == us;
        SubsequenceDrop(us, init, x);
      }
    }
  }

  /** The yielded UIDs are the candidates with some left out, in candidate
      order. */
  lemma CycleYieldsInOrder(p: Params, s: ServerState)
    ensures IsSubsequence(Cycle(p, s).yieldedUids, Candidates(p, s))
  {
    CycleLists(p, s);
    AcceptedIsSubsequence(p, s.messages, Candidates(p, s));
  }

  /** A listing that raised or found nothing ends the run at once: nothing
      is yielded or counted, the server is untouched, and no command but the
      SEARCH of the unread variants is sent. */
  lemma CycleEmptyListing(p: Params, s: ServerState)
    requires Listing(p, s) == []
    ensures var r := Cycle(p, s);
      && r.yielded == [] && r.outcomes == [] && r.tally == Tally(0, 0, 0) && r.server == s
      && |r.trace| <= 1
      && (forall i :: 0 <= i < |r.trace| ==> r.trace[i] == Sent(SearchCmd))
  {
  }

  /** What a run yields: the candidates that pass, in candidate order, each
      as the parse of its text, each accepted by the condition and, in the
      peek-only variant, none whose Message-ID is already stored. */
  lemma CycleYields(p: Params, s: ServerState)
    ensures var r, ids, m := Cycle(p, s), Candidates(p, s), s.messages;
      && r.yieldedUids == Accepted(p, m, ids)
      && (forall u :: u in r.yieldedUids <==> u in ids && Classify(p, m, u) == Yielded)
      && |r.yielded| == |r.yieldedUids|
      && (forall i :: 0 <= i < |r.yieldedUids| ==>
            && r.yieldedUids[i] in m
            && p.env.emailFromBytes(m[r.yieldedUids[i]].content) == Parsed(r.yielded[i])
            && Judge(p.condition, r.yielded[i]) == Accept
            && !(SkipsStoredDuplicates(p.cfg.variant) && IsStoredDuplicate(p.env, r.yielded[i])))
  {
    CycleLists(p, s);
    AcceptedParsed(p, s.messages, Candidates(p, s));
  }

  /** The counters of a run: `processed_count` is the number of messages
      yielded, yields and errors are distinct candidates, and `marked_count`
      never exceeds `processed_count` (it is zero in the variants that do not
      mark, and equal to it when no STORE raises). */
  lemma CycleTally(p: Params, s: ServerState)
    ensures var r, ids := Cycle(p, s), Candidates(p, s);
      && r.outcomes == Outcomes(p, s.messages, ids)
      && r.tally.processed == |r.yielded|
      && r.tally.errors == CountOf(r.outcomes, Errored)
      && r.tally.processed + r.tally.errors <= |ids|
      && r.tally.marked <= r.tally.processed
      && (!MarksSeenAfterYield(p.cfg.variant) ==> r.tally.marked == 0)
      && (MarksSeenAfterYield(p.cfg.variant) && (forall u :: StoreCmd(u, Seen) !in p.faults) ==>
            r.tally.marked == r.tally.processed)
  {
    var e, ids := Entry(p, s), Candidates(p, s);
    CycleIsLoop(p, s);
    EntryFresh(p, s);
    LoopTally(p, e, ids);
    CycleLists(p, s);
    AcceptedFacts(p, s.messages, ids);
    CountFacts(p, s.messages, ids);
  }

  /** A run never loses a message from the selected mailbox: the order, the
      UIDs and the texts stay, and the only flag change is \Seen on the
      candidates whose FETCH sets it. */
  lemma CycleMailbox(p: Params, s: ServerState)
    ensures var t, ids := Cycle(p, s).server, Candidates(p, s);
      && t.order == s.order
      && SameContents(s.messages, t.messages)
      && (forall v :: v in s.messages ==>
            t.messages[v].flags == s.messages[v].flags + (if v in ids && Refreshes(p, v) then {Seen} else {}))
      && (Valid(s) ==> Valid(t))
  {
    CycleIsLoop(p, s);
    EntryFresh(p, s);
    LoopContents(p, Entry(p, s), Candidates(p, s));
    LoopFlags(p, Entry(p, s), Candidates(p, s));
  }

  /** The peek-only variant leaves the mailbox exactly as it was. */
  lemma CyclePeekUnchanged(p: Params, s: ServerState)
    requires p.cfg.variant == UnreadOnlyNoMark
    ensures Cycle(p, s).server.messages == s.messages
  {
    var t := Cycle(p, s).server;
    CycleMailbox(p, s);
    assert forall v :: v in s.messages ==> t.messages[v] == s.messages[v];
  }

  /** Running the unread-and-mark variant again: the next SEARCH UNSEEN finds
      no UID the first did not, and none of the candidates whose FETCH went
      through, since that FETCH set \Seen. */
  lemma RerunAfterMarking(p: Params, s: ServerState)
    requires p.cfg.variant == UnreadOnly && Valid(s) && SearchCmd !in p.faults
    ensures var t := Cycle(p, s).server;
      && (forall u :: u in Listing(p, t) ==> u in Listing(p, s))
      && (forall u :: u in Candidates(p, s) && FetchCmd(u, Rfc822) !in p.faults ==> u !in Listing(p, t))
  {
    var t, ids := Cycle(p, s).server, Candidates(p, s);
    CycleMailbox(p, s);
    var fetched := set u | u in ids && FetchCmd(u, Rfc822) !in p.faults;
    assert forall v :: v in fetched ==> Refreshes(p, v);
    UnreadShrinks(s, t, p.faults, fetched);
  }

  /** Between two well-formed states with the same UIDs whose flags only
      grew, the unread listing only shrinks, and loses the UIDs that gained
      \Seen. */
  lemma UnreadShrinks(s: ServerState, t: ServerState, faults: set<Call>, seenNow: set<Uid>)
    requires Valid(s) && Valid(t) && SearchCmd !in faults && t.messages.Keys == s.messages.Keys
    requires forall v :: v in s.messages ==>
      s.messages[v].flags <= t.messages[v].flags && (v in seenNow ==> Seen in t.messages[v].flags)
    ensures forall u :: u in UnreadIds(t, faults) ==> u in UnreadIds(s, faults)
    ensures forall u :: u in seenNow ==> u !in UnreadIds(t, faults)
  {
    UnreadIdsAreUnseen(s, faults);
    UnreadIdsAreUnseen(t, faults);
  }

  /** Running the peek-only variant again lists the same UIDs in the same
      order. */
  lemma RerunPeekOnly(p: Params, s: ServerState)
    requires p.cfg.variant == UnreadOnlyNoMark
    ensures Listing(p, Cycle(p, s).server) == Listing(p, s)
  {
    var t := Cycle(p, s).server;
    CyclePeekUnchanged(p, s);
    CycleMailbox(p, s);
    assert SearchUnseenLine(t) == SearchUnseenLine(s);
  }

  /** The other variants leave every yielded message \Seen. */
  lemma CycleYieldedSeen(p: Params, s: ServerState)
    requires p.cfg.variant != UnreadOnlyNoMark
    ensures var r := Cycle(p, s);
      forall u :: u in r.yieldedUids ==> u in r.server.messages && Seen in r.server.messages[u].flags
  {
    var r, ids := Cycle(p, s), Candidates(p, s);
    CycleMailbox(p, s);
    CycleYields(p, s);
    forall u | u in r.yieldedUids
      ensures u in r.server.messages && Seen in r.server.messages[u].flags
    {
      assert u in ids && Classify(p, s.messages, u) == Yielded;
      assert Refreshes(p, u);
    }
  }

  /** A run touches no folder but the archive. An archive that existed
      receives the texts of the yielded messages whose COPY went through, in
      order, after what it held; an archive the run created holds just
      those. The archive is created only when there were candidates, LIST
      reported it missing and neither LIST nor CREATE raised. */
  lemma CycleFolders(p: Params, s: ServerState)
    ensures var t, a, ids := Cycle(p, s).server, p.cfg.archive, Candidates(p, s);
      && t.folders.Keys <= s.folders.Keys + {a}
      && (forall f :: f in s.folders && f != a ==> f in t.folders && t.folders[f] == s.folders[f])
      && (a in s.folders ==>
            a in t.folders && Contents(t.folders[a]) == Contents(s.folders[a]) + ArchivedContents(p, s.messages, ids))
      && (a !in s.folders ==>
            (a in t.folders <==> a != "" && Listing(p, s) != [] && ListCmd(a) !in p.faults && CreateCmd(a) !in p.faults))
      && (a !in s.folders && a in t.folders ==> Contents(t.folders[a]) == ArchivedContents(p, s.messages, ids))
  {
    var e, ids, a := Entry(p, s), Candidates(p, s), p.cfg.archive;
    CycleIsLoop(p, s);
    ArchiveSetupEffect(p, Initial(p, s));
    LoopFolders(p, e, ids);
  }

  /** The commands of a run, in order: the SEARCH (unread variants), the
      archive setup, then each candidate's events. Every candidate is fetched
      once, in order; the yields are the yielded UIDs; COPY and STORE only
      follow the yield of their UID; and only allowed commands are sent, so
      the peek-only variant never stores a flag. */
  lemma CycleTrace(p: Params, s: ServerState)
    ensures var r, ids := Cycle(p, s), Candidates(p, s);
      && r.trace == Preamble(p, s) + LoopEvents(p, s.messages, ids)
      && Project(r.trace, FetchedUid) == ids
      && Project(r.trace, YieldedUid) == r.yieldedUids
      && ActsOnlyAfterYield(r.trace)
      && SendsOnlyAllowed(p, r.trace)
  {
    var e, ids := Entry(p, s), Candidates(p, s);
    CycleIsLoop(p, s);
    EntryFresh(p, s);
    LoopTrace(p, e, ids);
    LoopLists(p, e, ids);
    LoopFetched(p, s.messages, ids);
    LoopYieldedUids(p, s.messages, ids);
    LoopOrder(p, s.messages, ids);
    PreambleFacts(p, s);
    ProjectAppend(Preamble(p, s), LoopEvents(p, s.messages, ids), FetchedUid);
    ProjectAppend(Preamble(p, s), LoopEvents(p, s.messages, ids), YieldedUid);
    TraceAppend(p, Preamble(p, s), LoopEvents(p, s.messages, ids));
  }
}
