/** The per-mailbox ingestion loop of the four IMAP transports. One
    `Transport` class stands for the four transport classes; its `Variant`
    chooses what each of them does differently: which UIDs are candidates,
    the FETCH data item, whether a stored Message-ID is skipped and whether
    \Seen is stored after the yield.

    The generator is drained completely by its callers, so a `yield` is an
    append to the list of yielded messages, and the steps after it run
    before the next UID. `Cycle` is the run as a function of the server
    state before it; `Transport.GetMessage` is proved to compute it. */
module Transports {
  import opened Base
  import opened SearchResponse
  import opened Imap

  datatype Variant = NoDelete | MarkAsRead | UnreadOnly | UnreadOnlyNoMark

  /** `RFC822` everywhere except in the peek-only variant, which fetches
      `BODY.PEEK[]`. */
  function FetchItemOf(v: Variant): FetchItem {
    if v == UnreadOnlyNoMark then BodyPeek else Rfc822
  }

  /** The unread variants search UNSEEN; the others list every message. */
  predicate ListsUnseenOnly(v: Variant) {
    v == UnreadOnly || v == UnreadOnlyNoMark
  }

  /** The variants that store `+FLAGS \Seen` after yielding a message. */
  predicate MarksSeenAfterYield(v: Variant) {
    v == MarkAsRead || v == UnreadOnly
  }

  /** Only the peek-only variant looks up the Message-ID before yielding. */
  predicate SkipsStoredDuplicates(v: Variant) {
    v == UnreadOnlyNoMark
  }

  /** A parsed email; `messageId` is "" when the header is absent or empty. */
  datatype Message = Message(messageId: string, payload: Bytes)

  /** What `get_email_from_bytes` does with the fetched bytes. */
  datatype Parse = Parsed(message: Message) | ParseTypeError | MessageParseError | OtherError

  /** What the optional `condition` callback does with a message. */
  datatype Verdict = Accept | Reject | Raise

  /** The collaborators whose code is not part of this model: the inherited
      `_get_all_message_ids` and `_get_small_message_ids`, the inherited
      parser, and the set of Message-IDs already stored (by any mailbox). */
  datatype Env = Env(
    allMessageIds: Reply<seq<Uid>>,
    smallMessageIds: seq<Uid> -> Reply<seq<Uid>>,
    emailFromBytes: Bytes -> Parse,
    storedMessageIds: set<string>)

  /** The transport's settings: its variant, the archive folder ("" for none)
      and the maximum message size (0 for none). */
  datatype Config = Config(variant: Variant, archive: string, maxMessageSize: nat)

  /** Everything a run depends on besides the server state. */
  datatype Params = Params(cfg: Config, condition: Option<Message -> Verdict>, env: Env, faults: set<Call>)

  /** What happened to one candidate UID: yielded; skipped because reading
      its text raised TypeError (the message is gone); skipped by the
      condition; skipped as an already stored Message-ID; or counted in
      `error_count`. */
  datatype Outcome = Yielded | Vanished | Filtered | Duplicate | Errored

  /** What the loop did, in order: a command sent, or a message yielded. */
  datatype Event = Sent(call: Call) | Yield(uid: Uid)

  /** The counters `processed_count`, `error_count` and `marked_count`. */
  datatype Tally = Tally(processed: nat, errors: nat, marked: nat)

  datatype Run = Run(
    server: ServerState,
    yielded: seq<Message>,
    yieldedUids: seq<Uid>,
    outcomes: seq<Outcome>,
    trace: seq<Event>,
    tally: Tally)

  function Judge(condition: Option<Message -> Verdict>, m: Message): Verdict {
    match condition
    case None => Accept
    case Some(accepts) => accepts(m)
  }

  predicate IsStoredDuplicate(env: Env, m: Message) {
    m.messageId != "" && m.messageId in env.storedMessageIds
  }

  /** `_get_unread_message_ids`: the parsed SEARCH UNSEEN line, or nothing
      when the search raised. */
  function UnreadIds(s: ServerState, faults: set<Call>): seq<Uid> {
    if SearchCmd in faults then [] else ParseSearchLine(SearchUnseenLine(s))
  }

  /** The candidate UIDs before the size filter; nothing when the listing
      raised. */
  function Listing(p: Params, s: ServerState): seq<Uid> {
    if ListsUnseenOnly(p.cfg.variant) then UnreadIds(s, p.faults)
    else match p.env.allMessageIds
      case Raised => []
      case Returned(ids) => ids
  }

  function ListingTrace(p: Params): seq<Event> {
    if ListsUnseenOnly(p.cfg.variant) then [Sent(SearchCmd)] else []
  }

  /** The best-effort size filter: kept as it is when not configured or when
      the probe raised. */
  function SizeFiltered(p: Params, ids: seq<Uid>): (kept: seq<Uid>)
    ensures p.cfg.maxMessageSize == 0 || p.env.smallMessageIds(ids).Raised? ==> kept == ids
    ensures p.cfg.maxMessageSize != 0 && p.env.smallMessageIds(ids).Returned? ==> kept == p.env.smallMessageIds(ids).value
  {
    if p.cfg.maxMessageSize == 0 then ids
    else match p.env.smallMessageIds(ids)
      case Raised => ids
      case Returned(small) => small
  }

  function Issue(r: Run, c: Call): Run {
    r.(trace := r.trace + [Sent(c)])
  }

  /** The best-effort archive setup: LIST the folder, CREATE it when LIST
      reported `None`; any raise just ends the setup. */
  function ArchiveSetup(p: Params, r: Run): Run {
    var a := p.cfg.archive;
    if a == "" then r
    else
      var r := Issue(r, ListCmd(a));
      if ListCmd(a) in p.faults then r
      else if ListResponse(r.server, a)[0] == NoFolder then
        var r := Issue(r, CreateCmd(a));
        if CreateCmd(a) in p.faults then r else r.(server := AfterCreate(r.server, a))
      else r
  }

  function Skip(r: Run, o: Outcome): Run {
    r.(outcomes := r.outcomes + [o])
  }

  function Fail(r: Run): Run {
    r.(outcomes := r.outcomes + [Errored], tally := r.tally.(errors := r.tally.errors + 1))
  }

  function Emit(r: Run, uid: Uid, m: Message): Run {
    r.(yielded := r.yielded + [m], yieldedUids := r.yieldedUids + [uid],
       outcomes := r.outcomes + [Yielded], trace := r.trace + [Yield(uid)],
       tally := r.tally.(processed := r.tally.processed + 1))
  }

  function CopyToArchive(p: Params, r: Run, uid: Uid): Run {
    var a := p.cfg.archive;
    if a == "" then r
    else
      var r := Issue(r, CopyCmd(uid, a));
      if CopyCmd(uid, a) in p.faults then r else r.(server := AfterCopy(r.server, uid, a))
  }

  function MarkSeen(p: Params, r: Run, uid: Uid): Run {
    if !MarksSeenAfterYield(p.cfg.variant) then r
    else
      var r := Issue(r, StoreCmd(uid, Seen));
      if StoreCmd(uid, Seen) in p.faults then r
      else r.(server := AddFlag(r.server, uid, Seen), tally := r.tally.(marked := r.tally.marked + 1))
  }

  /** One pass of the `for uid in message_ids` body. */
  function Step(p: Params, r: Run, uid: Uid): Run {
    var fetch := FetchCmd(uid, FetchItemOf(p.cfg.variant));
    var r := Issue(r, fetch);
    if fetch in p.faults then Fail(r)
    else
      var data := FetchResult(r.server, uid);
      var r := r.(server := AfterFetch(r.server, uid, fetch.item));
      match data
      // The `[None]` reply makes `msg_contents[0][1]` raise TypeError.
      case NoData => Skip(r, Vanished)
      case Body(raw) =>
        match p.env.emailFromBytes(raw)
        case ParseTypeError => Skip(r, Vanished)
        case MessageParseError => Fail(r)
        case OtherError => Fail(r)
        case Parsed(m) =>
          var verdict := Judge(p.condition, m);
          if verdict == Raise then Fail(r)
          else if verdict == Reject then Skip(r, Filtered)
          else if SkipsStoredDuplicates(p.cfg.variant) && IsStoredDuplicate(p.env, m) then Skip(r, Duplicate)
          else MarkSeen(p, CopyToArchive(p, Emit(r, uid, m), uid), uid)
  }

  /** The loop over `ids`, starting from `start`. */
  function Loop(p: Params, start: Run, ids: seq<Uid>): Run
    decreases |ids|
  {
    if ids == [] then start
    else Step(p, Loop(p, start, ids[..|ids| - 1]), ids[|ids| - 1])
  }

  function Initial(p: Params, s: ServerState): Run {
    Run(s, [], [], [], ListingTrace(p), Tally(0, 0, 0))
  }

  /** A whole `get_message` run on server state `s`. */
  function Cycle(p: Params, s: ServerState): Run {
    var ids := Listing(p, s);
    if ids == [] then Initial(p, s)
    else Loop(p, ArchiveSetup(p, Initial(p, s)), SizeFiltered(p, ids))
  }

  class Transport {
    const server: ImapServer
    const variant: Variant
    const archive: string
    const maxMessageSize: nat

    function Settings(): Config {
      Config(variant, archive, maxMessageSize)
    }

    constructor (server: ImapServer, variant: Variant, archive: string, maxMessageSize: nat)
      ensures this.server == server && Settings() == Config(variant, archive, maxMessageSize)
    {
      this.server := server;
      this.variant, this.archive, this.maxMessageSize := variant, archive, maxMessageSize;
    }

    /** `_get_unread_message_ids`. */
    method UnreadMessageIds() returns (ids: seq<Uid>)
      ensures ids == UnreadIds(server.State(), server.faults)
    {
      var reply := server.UidSearchUnseen();
      match reply {
        case Raised =>
          ids := [];
        case Returned(line) =>
          var text := Strip(line);
          if text != [] {
            ids := Split(text);
          } else {
            ids := [];
          }
      }
    }

    /** The candidate listing of `get_message`: the UNSEEN search in the
        unread variants, otherwise `_get_all_message_ids`, whose raise ends
        the run like an empty list. */
    method ListMessageIds(env: Env, ghost p: Params) returns (ids: seq<Uid>)
      requires p.cfg == Settings() && p.env == env && p.faults == server.faults
      ensures ids == Listing(p, server.State())
    {
      if ListsUnseenOnly(variant) {
        ids := UnreadMessageIds();
      } else {
        match env.allMessageIds {
          case Raised =>
            ids := [];
          case Returned(all) =>
            ids := all;
        }
      }
    }

    /** The best-effort size filter: `_get_small_message_ids` when a maximum
        size is set; a raise keeps the list as it was. */
    method SmallMessageIds(ids: seq<Uid>, env: Env, ghost p: Params) returns (kept: seq<Uid>)
      requires p.cfg == Settings() && p.env == env
      ensures kept == SizeFiltered(p, ids)
    {
      kept := ids;
      if maxMessageSize != 0 {
        match env.smallMessageIds(ids) {
          case Raised =>
          case Returned(small) =>
            kept := small;
        }
      }
    }

    /** The archive setup of `get_message`: LIST, then CREATE when the folder
        is missing; a raise from either is caught and the run goes on. */
    method EnsureArchiveFolder(ghost p: Params, ghost run: Run) returns (ghost after: Run)
      requires p.cfg == Settings() && p.faults == server.faults && run.server == server.State()
      modifies server
      ensures after == ArchiveSetup(p, run) && server.State() == after.server
    {
      after := run;
      if archive != "" {
        after := Issue(after, ListCmd(archive));
        var listed := server.List(archive);
        if listed.Returned? && |listed.value| > 0 && listed.value[0] == NoFolder {
          after := Issue(after, CreateCmd(archive));
          var created := server.Create(archive);
          after := after.(server := server.State());
        }
      }
    }

    /** The body of the `for uid in message_ids` loop: the message yielded for
        `uid`, if any, and whether `error_count` and `marked_count` grow. */
    method ProcessUid(uid: Uid, condition: Option<Message -> Verdict>, env: Env, ghost p: Params, ghost run: Run)
      returns (yieldedNow: Option<Message>, erred: bool, markedNow: bool, ghost after: Run)
      requires p == Params(Settings(), condition, env, server.faults) && run.server == server.State()
      modifies server
      ensures after == Step(p, run, uid) && server.State() == after.server
      ensures after.yielded == run.yielded + (if yieldedNow.Some? then [yieldedNow.value] else [])
      ensures after.tally == Tally(run.tally.processed + (if yieldedNow.Some? then 1 else 0),
                                   run.tally.errors + (if erred then 1 else 0),
                                   run.tally.marked + (if markedNow then 1 else 0))
    {
      yieldedNow, erred, markedNow := None, false, false;
      var item := FetchItemOf(variant);
      var reply := server.UidFetch(uid, item);
      after := Issue(run, FetchCmd(uid, item));
      if reply.Raised? {
        erred := true;
        after := Fail(after);
        return;
      }
      after := after.(server := server.State());
      if reply.value.NoData? {
        // `msg_contents` is `[None]`: reading the text raises TypeError.
        after := Skip(after, Vanished);
        return;
      }
      match env.emailFromBytes(reply.value.content) {
        case ParseTypeError =>
          after := Skip(after, Vanished);
        case MessageParseError =>
          erred := true;
          after := Fail(after);
        case OtherError =>
          erred := true;
          after := Fail(after);
        case Parsed(m) =>
          var verdict := if condition.Some? then condition.value(m) else Accept;
          if verdict == Raise {
            erred := true;
            after := Fail(after);
          } else if verdict == Reject {
            after := Skip(after, Filtered);
          } else if SkipsStoredDuplicates(variant) && m.messageId != "" && m.messageId in env.storedMessageIds {
            after := Skip(after, Duplicate);
          } else {
            yieldedNow := Some(m);
            markedNow, after := AfterYield(uid, p, Emit(after, uid, m));
          }
      }
    }

    /** The steps after `yield`: COPY to the archive, then, in the marking
        variants, STORE \Seen; a raise from either is caught. */
    method AfterYield(uid: Uid, ghost p: Params, ghost run: Run) returns (markedNow: bool, ghost after: Run)
      requires p.cfg == Settings() && p.faults == server.faults && run.server == server.State()
      modifies server
      ensures after == MarkSeen(p, CopyToArchive(p, run, uid), uid) && server.State() == after.server
      ensures after.yielded == run.yielded
      ensures after.tally == run.tally.(marked := run.tally.marked + (if markedNow then 1 else 0))
    {
      markedNow := false;
      after := run;
      if archive != "" {
        var copied := server.UidCopy(uid, archive);
        after := Issue(after, CopyCmd(uid, archive));
        after := after.(server := server.State());
      }
      if MarksSeenAfterYield(variant) {
        var stored := server.UidStore(uid, Seen);
        after := Issue(after, StoreCmd(uid, Seen));
        after := after.(server := server.State());
        if stored.Returned? {
          markedNow := true;
          after := after.(tally := after.tally.(marked := after.tally.marked + 1));
        }
      }
    }

    /** `get_message`, drained to the end: the yielded messages and the
        counters, with the server left as `Cycle` says. */
    method GetMessage(condition: Option<Message -> Verdict>, env: Env)
      returns (yielded: seq<Message>, tally: Tally, ghost run: Run)
      modifies server
      ensures run == Cycle(Params(Settings(), condition, env, server.faults), old(server.State()))
      ensures server.State() == run.server && yielded == run.yielded && tally == run.tally
    {
      ghost var p := Params(Settings(), condition, env, server.faults);
      ghost var s0 := server.State();
      run := Initial(p, s0);
      yielded, tally := [], Tally(0, 0, 0);

      var ids := ListMessageIds(env, p);
      if ids == [] {
        return;
      }
      ids := SmallMessageIds(ids, env, p);
      assert ids == SizeFiltered(p, Listing(p, s0));

      run := EnsureArchiveFolder(p, run);
      ghost var setup := run;
      assert Cycle(p, s0) == Loop(p, setup, ids);

      var processed, errors, marked := 0, 0, 0;
      for i := 0 to |ids|
        invariant run == Loop(p, setup, ids[..i])
        invariant server.State() == run.server && yielded == run.yielded
        invariant Tally(processed, errors, marked) == run.tally
      {
        assert ids[..i + 1][..i] == ids[..i];
        var yieldedNow, erred, markedNow;
        yieldedNow, erred, markedNow, run := ProcessUid(ids[i], condition, env, p, run);
        if yieldedNow.Some? {
          yielded := yielded + [yieldedNow.value];
          processed := processed + 1;
        }
        if erred {
          errors := errors + 1;
        }
        if markedNow {
          marked := marked + 1;
        }
      }
      assert ids[..|ids|] == ids;
      tally := Tally(processed, errors, marked);
    }
  }
}
